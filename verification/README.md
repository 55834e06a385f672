# A verified model of the squiddish caching proxy

squiddish is a forwarding HTTP proxy. When several clients ask for the same
resource, one task downloads it and everybody is served from that download while
it is still running; what came through whole may be kept in a memory tier and a
disk tier. This project models the parts whose correctness depends on order and on
shared state, and proves what clients may rely on.

## Parts

* **The download protocol** (`Protocol`, `ProtocolInvariant`, `ProtocolTheorems`,
  `Endings`, `Streaming`). A transition system over any number of keys, of downloads
  ("generations", since a key may be downloaded again and again) and of clients,
  each in the middle of something. Joining (take the write lock, subscribe, copy the
  accumulated chunks, subscribe to the headers) and adding a chunk (push under the
  read lock, then send) are split into their micro-steps, and the lock on the table
  is explicit. One invariant is kept by each of the 21 steps; the theorems hold in
  every reachable state or over every run. Channel capacity and body limit are
  arbitrary.
* **The same operations in place** (`Inflight`, `Handler`). The table, its channels,
  the body a client polls and the task that drives a download are classes and
  methods with the branches of the program. Their contracts are stated with the
  functions the transition system uses, and `Refinement` proves that a task carried
  out by the methods is one of the system's runs, with the same result: what
  holds of all runs holds of it.
* **The disk cache** (`Files`, `Fifos`, `DiskLayout`, `DiskCaches`, `Rebuilding`,
  `DiskRuns`). A class over a mutable file system, with the eviction loop, the
  directory walk and the sort. It is proved to be a bounded first-in first-out map;
  the laws of that map are proved over all runs.
* **The two tiers** (`Tiers`), **the whole way** from a download to a later cache hit
  under any interleaving of its clients (`EndToEnd`), and **whole sequences of
  requests** served one after the other (`Service`).
* **Decisions on headers, keys and names** (`Text`, `Headers`, `Freshness`,
  `CacheKeys`, `Hosts`, `HtmlEscape`).

## What the libraries are taken to do

* A broadcast channel stores a message only while it has a receiver. A new receiver
  starts behind everything stored. One that is more than the capacity behind is told
  so and loses what was overwritten. Stored messages come before closure, and the
  channel is closed when its last sender is gone.
* A watched value is replaced only while somebody watches.
* The memory tier may drop any entry at any moment. Hashing is injective; metadata
  that was written reads back and is never empty; parsing HTTP dates and the order in
  which a header map lists its fields are parameters. The clock is read anew
  wherever the program reads it, and no reading is related to another.

## Where the code does less than its comments say

* A failed download can look complete. The error is put into the metadata channel
  only while somebody still waits for headers; a client that joins between that
  moment and the removal from the table finds the old headers, subscribes after the
  broadcast of the error, is handed the chunks so far and then a normal end of
  stream. `ErrorMissedExactly` gives the exact condition, `TruncatedLooksComplete` a
  run.
* Headers published while nobody waits for them are kept nowhere: every later joiner
  of that download is refused, although the download may well succeed
  (`HeadersLostExactly`, `HeadersLost`).
* Overwriting an entry on disk counts its old bytes while making room, so it can evict
  other entries although the new one would have fitted in the old one's place. The
  exact condition is `NeedlessLossExactly`, a run `OverwriteLosesNeighbour`.
* Missing in the cache and joining a download are two steps. Two requests can both
  miss, download one after the other and store twice with no miss in between; if the
  first response was large and the second is small, the disk tier keeps the first and
  serves it again once the memory tier dropped the second
  (`RacingMissesServeTheOlder`, exact condition in `PutIsCoherentExactly`).
* After a restart, files with equal modification times may come in either order; the
  order is recovered exactly if the times strictly increase along it
  (`RestartIsExact`).
* The entry of this proxy in a Via line is overlooked if another intermediary's part
  of the same line is not plain ASCII (`UnreadableNeighbourHidesUs`; exact conditions
  in `NeighboursDecide` and, for any recombination, `RecognisedExactly`).

## Model

| member | source | states |
|---|---|---|
| ProtocolInvariant.InvNext | src/cache/inflight.rs:70-198 | each of the 21 steps of clients and tasks keeps the invariant on lock, table, downloads and clients |
| ProtocolInvariant.InvReachable | src/cache/inflight.rs:70-198 | so every run from the empty table does |
| ProtocolTheorems.DeliveryIsExact | src/proxy/streaming.rs:39-81 | what a client was handed is always a prefix of the chunks of its download, without gap, repetition or reordering; after a clean end on a successful download it is all of them, and only somebody who subscribed after Complete ends by closure |
| ProtocolTheorems.WriteLockSeesWholeChunks | src/cache/inflight.rs:177-190 | while the write lock is held, the accumulated chunks of every download are exactly those offered to its channel |
| ProtocolTheorems.CopyAndChannelPartition | src/cache/inflight.rs:74-79 | at every moment, what a client got, what is left of its copy and what waits in the channel are together exactly the offered chunks, without overlap or gap |
| ProtocolTheorems.OverrunEndsInError | src/proxy/streaming.rs:68-72 | a client overrun by the ring gets an error, and nothing more in any continuation |
| ProtocolTheorems.EndIsFinal | src/proxy/streaming.rs:45-47 | in every continuation an ended body stays ended the same way and receives nothing |
| ProtocolTheorems.FailureIsNoticed | src/proxy/handler.rs:303-311 | after a failed download nobody who subscribed before the Error broadcast ends cleanly, and no later joiner is served if the error reached the metadata channel |
| ProtocolTheorems.ErrorMissedExactly | src/cache/inflight.rs:169-175 | at the moment the error is recorded, some continuation lets a client take the failed download for complete if and only if headers were published and no metadata receiver is live |
| ProtocolTheorems.LateJoinerIsDeceived | src/proxy/handler.rs:303-311 | the continuation that does it, from every such state, whatever other downloads are in the middle of |
| ProtocolTheorems.HeadersLostExactly | src/cache/inflight.rs:159-165 | at the moment headers are published, some continuation serves a client of this download if and only if a metadata receiver is live |
| ProtocolTheorems.SingleFlight | src/cache/inflight.rs:70-99 | in every reachable state the entries of the table and the unfinished downloads correspond one to one, per key |
| ProtocolTheorems.TaskTouchesOwnGeneration | src/cache/inflight.rs:159-190 | the four steps that find a download by key change the shared state of the task's own generation as push, send and the two uses of the metadata channel should, and no other generation |
| ProtocolTheorems.GuardRemovesOwnEntry | src/proxy/handler.rs:20-29 | dropping the guard removes the task's own entry and leaves every other download where it was, also when a key was restarted |
| ProtocolTheorems.RunEvolves | src/proxy/handler.rs:294-311 | over every run the chunks of a download only grow, and its outcome, once there, and what it stored stay as they are |
| ProtocolTheorems.WaiterIsResolved | src/proxy/handler.rs:251-260 | once a download is over, whoever still waits for its headers gets an answer at its next step |
| ProtocolTheorems.BodyRunsOut | src/proxy/streaming.rs:39-81 | once a download is over, as many polls as there are unread chunks and messages, plus one, end the body for good, whatever others do in between |
| ProtocolTheorems.EveryBodyEnds | src/proxy/streaming.rs:39-81 | the same from every reachable state |
| Endings.PollHandsOutNext | src/proxy/streaming.rs:49-60 | in every reachable state the next poll of a client that keeps up, or still has some of its copy, hands out its first outstanding chunk if there is one |
| Endings.PollTellsOutcome | src/proxy/streaming.rs:61-80 | with nothing outstanding it waits while the download goes on, ends cleanly after a success, fails with the reason after a failure, and ends on closure for who came after the announcement |
| Endings.BreaksOnlyForCause | src/proxy/streaming.rs:65-72 | a response breaks off only for a client that was overrun or because the download failed |
| Endings.EndTellsOutcome | src/proxy/streaming.rs:39-81 | over every run: once the download is over, a client that keeps up and polls as often as there is left to read ends cleanly with every chunk if it succeeded, and with an error if it failed before the client could miss it |
| ProtocolTheorems.StoredIsDelivered | src/proxy/handler.rs:467-479 | what a task stored has the bytes every cleanly ended client of it got, the status and headers they were told, is within the limit and comes from a task that did not fail |
| Streaming.FrameIsNextOutstanding | src/proxy/streaming.rs:50-63 | a frame is the first outstanding chunk, whether from the copy or the channel, and the rest stays outstanding |
| Streaming.ClosedPollProgresses | src/proxy/streaming.rs:73-78 | on a closed channel every poll answers at once, uses up part of what remains, and ends the body unless it hands out a frame |
| Scenarios.TruncatedLooksComplete | src/proxy/handler.rs:303-311 | a reachable state, for every key, headers and chunk, from which a truncated download is taken for complete |
| Scenarios.HeadersLost | src/cache/inflight.rs:159-165 | a reachable state in which published headers are lost for good |
| Refinement.ChunkIsTwoSteps | src/cache/inflight.rs:182-190 | adding a chunk is a push and a send of the transition system |
| Refinement.ChunksAreARun | src/proxy/handler.rs:400-428 | the chunk loop is a run of it, with the same accumulated chunks, messages, total and buffer |
| Refinement.FetchIsARun | src/proxy/handler.rs:334-480 | the fetch is a run of it, ending with the same outcome, the same shared state and the same stored entry, in every branch |
| Refinement.TaskIsARun | src/proxy/handler.rs:287-312 | the whole task with its announcements is a run of it, and touches nothing but its own download |
| ProtocolTheorems.JoiningIsARun | src/cache/inflight.rs:74-89 | the micro-steps of joining leave the client where the method leaves it, behind all messages and with a copy of all chunks |
| Refinement.StartingIsARun | src/proxy/handler.rs:277-292 | starting is a run of it that leaves a fresh download and its first client subscribed before the first chunk |
| Inflight.Receiver.Receive | src/proxy/streaming.rs:57-79 | missed messages are reported before anything else, stored messages come before closure |
| Inflight.InflightDownloads.JoinOrStartDownload | src/cache/inflight.rs:70-99 | exactly one of join and start: a joiner gets a receiver behind all stored messages and the chunks so far, a starter a fresh download; other downloads are untouched |
| Inflight.InflightDownloads.SetResponseMeta | src/cache/inflight.rs:159-165 | replaces the watched value if somebody watches; only this download, nothing else of it |
| Inflight.InflightDownloads.SetResponseError | src/cache/inflight.rs:169-175 | likewise with the error |
| Inflight.InflightDownloads.AddChunk | src/cache/inflight.rs:182-190 | pushes and sends as the two steps of the transition system do, for this download only |
| Inflight.InflightDownloads.CompleteDownload | src/cache/inflight.rs:193-198 | takes exactly this key off the table, drops the table's sender and leaves what clients share as it was |
| Inflight.StreamingBody.PollFrame | src/proxy/streaming.rs:39-81 | moves as the body of the transition system does and answers what it answers, in every branch |
| Inflight.FinishTask | src/proxy/handler.rs:298-312 | the download ends up with the terminal message behind all others if somebody listens and, after a failure, with the error as metadata if somebody watches; its key is off the table and its channel closed. That the announcements come in this order is AnnouncementIsARun |
| Refinement.AnnouncementIsARun | src/proxy/handler.rs:298-311 | error to the metadata channel, then the terminal message, both before the guard goes: two steps of the transition system in this order, with the same result |
| Handler.StreamBody | src/proxy/handler.rs:390-428 | passes on exactly the chunks before the first timeout, broken frame or chunk over the limit, reports that trouble, and collects their bytes if cacheable |
| Handler.WithinLimit | src/proxy/handler.rs:411-415 | what is passed on never exceeds the body limit |
| Handler.SucceedsExactly | src/proxy/handler.rs:400-428 | the body is taken whole if and only if no frame is late or broken and the chunks together are within the limit |
| Handler.FirstTroubleDecides | src/proxy/handler.rs:404-415 | the first late, broken or too large frame gives the reason, and exactly the chunks before it are passed on |
| Handler.AddedAll | src/cache/inflight.rs:182-190 | chunks added one by one are accumulated and offered in order, and are the data on the channel if somebody listens |
| Handler.CacheBody | src/proxy/handler.rs:430-479 | stores one entry if the response may be stored and has a lifetime, package rules first; otherwise the cache is as before |
| Handler.FetchAndStream | src/proxy/handler.rs:334-480 | every exit with a failure, and every response that may not be stored, leaves the cache unchanged; otherwise it holds the concatenation of the chunks passed on |
| Handler.RunTask | src/proxy/handler.rs:287-312 | fetch, announcement and clean-up in order; the key is off the table and the channel closed at the end |
| Handler.SubscribeAndSpawn | src/proxy/handler.rs:277-312 | because the initiator subscribes first, its channel holds every chunk and then the outcome once the task is done; for clients that read meanwhile see DeliveryIsExact |
| Handler.HandleStreamingDownload | src/proxy/handler.rs:270-324 | if the task is done first: answers with an error, or with the headers and a body from which exactly the chunks passed on are still to come |
| Handler.HandleCacheableRequest | src/proxy/handler.rs:226-268 | a hit answers from the cache; a miss subscribes to the download in flight, or runs one and stores its response; the table is afterwards as before |
| Handler.StoredIsWhatWasSent | src/proxy/handler.rs:430-479 | what is stored has the bytes passed on and the status and headers published, is within the limit, and comes from a download without failure |
| Handler.StoredExactly | src/proxy/handler.rs:430-479 | an entry is stored if and only if the body came whole and within the limit, the response may be stored, and it is a package or did not arrive expired |
| Handler.StoredLifetime | src/proxy/handler.rs:442-473 | its lifetime is that of packages, else the one its headers state, else the configured one, from the moment it is stored |
| Handler.ToldExactly | src/proxy/handler.rs:298-323 | clients get status, filtered headers and all chunks of a response that came whole, and the reason of the failure otherwise |
| Service.TraceIsDisciplined | src/proxy/handler.rs:237-248 | requests served one after the other never store without having missed first and stored nothing since |
| Service.CachedIsLastStored | src/proxy/handler.rs:226-268 | over every sequence of requests, with memory forgetting in between: a request answered from the cache gets, unexpired, the entry that the last storing request for the resource stored, and none finds an unreadable entry |
| Service.StoredWasSent | src/proxy/handler.rs:395-479 | that entry holds exactly what the earlier request's clients were sent and told |
| Service.StoredIsServedAgain | src/proxy/handler.rs:237-240 | what was fetched and stored is served from the cache until it expires, unless memory dropped it, whatever is requested in between |
| Service.ServeAll | src/proxy/handler.rs:226-268 | serving the sequence answers from the cache exactly where, and with what, that account of it says |
| Tiers.TieredCache.Get | src/cache/mod.rs:73-98 | the unexpired memory entry, else the unexpired disk entry, which is promoted; expired ones are removed from the tier they were found in; unreadable metadata is an error |
| Tiers.TieredCache.Put | src/cache/mod.rs:100-109 | memory always, disk too for entries above 1 MiB |
| Tiers.HitsExactly | src/cache/mod.rs:73-98 | a look-up hits if and only if a tier holds the key unexpired when it is asked; memory goes first |
| Tiers.LookUpEffect | src/cache/mod.rs:73-98 | a hit ends up in memory and leaves the disk; only what expired is removed; other keys stay |
| Tiers.StoreEffect | src/cache/mod.rs:100-109 | every put is in memory, and on disk exactly if it is above 1 MiB and fits |
| Tiers.SizeAdds | src/cache/mod.rs:34-42 | data, 48 bytes and the texts for each field, and 64 bytes |
| Tiers.PutIsFoundLater | src/cache/mod.rs:73-109 | over every run, what was put is found again until it expires, unless it was replaced or memory lost it |
| Tiers.ExpiredExactly | src/cache/mod.rs:26-32 | an entry is good from its timestamp until one second past its lifetime is complete, and never before its timestamp |
| Tiers.RunIsCoherent | src/cache/mod.rs:73-109 | over every run in which each put of a key follows a miss for it, with entries dropped from memory and restarts anywhere: each tier that has the key has what was put last, and only large entries are on disk |
| Tiers.GetIsLastPut | src/cache/mod.rs:73-98 | after such a run a look-up gives the entry put last, not expired when checked, or nothing |
| Tiers.HeldWasPut | src/cache/mod.rs:73-109 | over every run whatsoever, what either tier holds for a key is an entry that was put for that key, whole |
| Tiers.GetWasPut | src/cache/mod.rs:73-98 | so a look-up never gives anything else, nor an entry expired when checked, nor an unreadable one |
| Tiers.PutIsCoherentExactly | src/cache/mod.rs:100-109 | without the miss, a put leaves the tiers right if and only if no other entry stays on disk |
| Tiers.OlderEntryReturns | src/cache/mod.rs:73-109 | if one does, it is served again once memory has dropped the newer one |
| Tiers.RacingMissesServeTheOlder | src/proxy/handler.rs:237-248 | two requests that both miss are enough for that |
| EndToEnd.HitServesSomeDownload | src/proxy/handler.rs:467-479 | with racing misses, forgetting and restarts anywhere: if all that was put for a key was stored by downloads of it, a hit serves what one of them stored, with the bytes every cleanly ended client of that download got and the status and headers they were told |
| EndToEnd.HitServesWhatClientsGot | src/proxy/handler.rs:467-479 | if moreover each put of a key follows a miss for it, that download is the last one that stored |
| DiskCaches.DiskCache.Put | src/cache/disk.rs:293-349 | the files stand for the first-in first-out map after a put; the running count stays exact; the bytes on disk never exceed the larger of the maximum and what there was before, after any single file operation |
| DiskCaches.DiskCache.EvictIfNeeded | src/cache/disk.rs:139-195 | takes away exactly the entries the map evicts, front first, files and count included |
| DiskCaches.DiskCache.Replace | src/cache/disk.rs:313-339 | the old pair of files goes, the new one comes, the key is once in the order and at the back |
| DiskCaches.DiskCache.RemoveKey | src/cache/disk.rs:351-364 | removes the key from files, count and order |
| DiskCaches.DiskCache.RemoveEntry | src/cache/disk.rs:267-287 | deletes both files and returns the bytes they had, none if they were not there |
| DiskCaches.DiskCache.WriteEntry | src/cache/disk.rs:198-227 | both files, in directories that are made first, and their size |
| DiskCaches.DiskCache.Get | src/cache/disk.rs:229-265 | reads back what the map holds: nothing if either file is missing, an error for unreadable metadata |
| DiskCaches.DiskCache.RebuildIndex | src/cache/disk.rs:71-137 | the order is that of the metadata files sorted by time, stably, and the count the sum of their sizes and their data files' |
| DiskCaches.DiskCache.constructor | src/cache/disk.rs:55-69 | opened on the files of a stopped instance the index is exact, and with increasing times the same as before |
| DiskCaches.NeverSaturates | src/cache/disk.rs:342-343 | what an entry occupies never exceeds the running count, so subtracting it never saturates and leaves the count of the rest |
| DiskCaches.EvictDone | src/cache/disk.rs:146-193 | neither does subtracting what eviction freed |
| DiskLayout.TotalIsSum | src/cache/disk.rs:342-343 | the sum over the order is the sum over all files on disk |
| DiskLayout.SizeTellsPresence | src/cache/disk.rs:313-320 | the size of the removed files is positive exactly if the key was there, which is how a put decides to clean the order |
| DiskLayout.WrittenWhere | src/cache/key.rs:43-48 | both files lie in two levels of directories named by the first four characters of the hash; no other file changes |
| Fifos.EvictsShortestPrefix | src/cache/disk.rs:139-195 | the evicted entries are the shortest prefix of the order that makes room |
| Fifos.PutEffect | src/cache/disk.rs:293-349 | an accepted put moves the key to the back with the new content and leaves every other survivor's content and order |
| Fifos.PutWithinBound | src/cache/disk.rs:293-349 | it brings the total within the maximum, even from above |
| Fifos.RejectedPutChangesNothing | src/cache/disk.rs:310-317 | an oversized put leaves every key its content and its place |
| Fifos.RejectedPutsDoNotMatter | src/cache/disk.rs:310-317 | every run ends like the run without its oversized puts |
| Fifos.RemoveEffect | src/cache/disk.rs:351-364 | a removal takes out its key and leaves every other its content and its place |
| Fifos.OverwriteKeepsOthersExactly | src/cache/disk.rs:310-320 | overwriting costs no other entry if and only if old and new fit side by side with the rest, or the old one is the oldest and the rest leaves room for the new |
| Fifos.NeedlessLossExactly | src/cache/disk.rs:310-320 | when the new entry fits in the place of the old one, no other is lost if and only if it fits beside it too, or the old one is the oldest |
| Fifos.OverwriteLosesNeighbour | src/cache/disk.rs:310-320 | a run of three puts in which an entry is lost although both entries would have fitted |
| Fifos.RunsRefineMap | src/cache/disk.rs:293-364 | over every run: the order lists the held keys once each, the bound is kept, and a held key reads back its last accepted put |
| Fifos.LostForCause | src/cache/disk.rs:139-195 | a held key is lost only by its removal, or by an accepted put of another key in whose way it stood |
| Fifos.MissingForCause | src/cache/disk.rs:139-195 | over every run an accepted entry that is gone was taken away by such an operation |
| Fifos.RunsAreTimeOrdered | src/cache/disk.rs:331-346 | over every run with increasing times the order is that of the times |
| Rebuilding.Walk | src/cache/disk.rs:72-119 | the walk finds each metadata file exactly once, however directories are listed, and sums up sizes |
| Rebuilding.SortSorts | src/cache/disk.rs:121-122 | the sort orders by time and keeps every element |
| Rebuilding.SortIsStable | src/cache/disk.rs:121-122 | entries of the same time keep the order in which the walk found them |
| Rebuilding.RestartRecovers | src/cache/disk.rs:71-137 | from files whose times increase along the order, the rebuild finds that order |
| Rebuilding.RestartIsExact | src/cache/disk.rs:121-122 | it finds it from every listing of the directory if and only if they do |
| Rebuilding.RestartRecoversSize | src/cache/disk.rs:102-110 | it finds the byte count whatever the times are |
| DiskRuns.Run | src/cache/disk.rs:293-364 | any sequence of puts and removals from an empty directory leaves files that stand for the map's result, and never had more than the maximum on disk |
| DiskRuns.RunAndReopen | src/cache/disk.rs:55-137 | an instance started on those files counts the same bytes over the same entries, in the same order if the times increased |
| Freshness.ShouldCacheResponse | src/proxy/handler.rs:703-755 | true exactly for a successful status when no readable item of Cache-Control, Pragma or Vary forbids it |
| Freshness.CacheableExactly | src/proxy/handler.rs:703-755 | the status range and the words, literally and in any case |
| Freshness.ParseCacheControlHeaders | src/proxy/handler.rs:482-532 | the last valid s-maxage, else the last valid max-age, else Expires, invalid dates being past |
| Freshness.LastSomeIsLast | src/proxy/handler.rs:487-502 | what "last valid" means: it is there, and nothing valid comes after it |
| Freshness.SharedMaxAgeDecides | src/proxy/handler.rs:506-510 | the last valid s-maxage is the lifetime, whatever max-age and Expires say |
| Freshness.MaxAgeDecides | src/proxy/handler.rs:511-513 | without one, the last valid max-age is |
| Freshness.ExpiresDecides | src/proxy/handler.rs:515-531 | without either, the whole seconds until the date of the first Expires line; zero for a past or unreadable date; nothing without such a line |
| Freshness.DirectiveCarries | src/proxy/handler.rs:492-501 | a directive in any case with the decimal spelling of a number below 2^64 carries that number |
| Freshness.SharedBeatsPrivate | src/proxy/handler.rs:506-513 | on one line with both, s-maxage counts although max-age comes first, for all numbers |
| Text.ParsesDecimal | src/proxy/handler.rs:493-500 | decimal spellings are read as their number, with or without plus sign, up to 2^64 and not from there on |
| Text.ParsesNothingElse | src/proxy/handler.rs:493-500 | and nothing but digits after at most one plus sign is read |
| Freshness.CombiningLinesChangesNothing | src/proxy/handler.rs:703-755 | joining readable lines of these headers with commas changes neither verdict nor lifetime (section 3.2.2 of RFC 7230) |
| Freshness.AddingDirectivesNeverPermits | src/proxy/handler.rs:703-755 | further directives never make an uncacheable response cacheable |
| Headers.HasViaLoop | src/proxy/handler.rs:785-796 | finds the pseudonym exactly if some readable item is it, case aside |
| Headers.ViaSpelled | src/proxy/handler.rs:361-365 | the entry that is appended, literally; no other header changes |
| Headers.ForwardedRequestIsRecognised | src/proxy/handler.rs:358-365 | whatever came in, a forwarded request is recognised on return, after any intermediaries added Via lines or combined readable ones (section 5.7.1 of RFC 7230) |
| Headers.RecognisedExactly | src/proxy/handler.rs:785-796 | whatever they combined: it is recognised if and only if the line our entry ended up on is readable as a whole, or another line names this proxy |
| Headers.NeighboursDecide | src/proxy/handler.rs:787-788 | between two neighbours on one line, our entry is found if and only if both are readable |
| Headers.UnreadableNeighbourHidesUs | src/proxy/handler.rs:787-788 | readability is needed: one unreadable neighbour on the line hides the entry |
| Headers.EditsKeepTokens | src/proxy/handler.rs:785-796 | adding and combining lines keeps every list item, in order |
| Headers.FilterHeaders | src/proxy/handler.rs:899-925 | keeps exactly the names neither well known nor listed by a readable Connection line, values untouched (section 6.1 of RFC 7230) |
| Headers.FilteredExactly | src/proxy/handler.rs:899-925 | the eight names, literally, and those a readable Connection line lists in any case |
| Headers.FilteringIsIdempotent | src/proxy/handler.rs:899-925 | filtering again changes nothing |
| CacheKeys.HashInput | src/cache/key.rs:12-24 | feeding the hasher piece by piece gives the fields with NUL between them |
| CacheKeys.PreimageSpelled | src/cache/key.rs:12-24 | the bytes that are hashed, separators included |
| CacheKeys.CreateCacheKey | src/proxy/handler.rs:588-611 | what is hashed for a request has its method, its URI and its Accept-Encoding lines, and all three can be read back from it |
| CacheKeys.KeyRoundTrip | src/cache/key.rs:12-24 | without NUL in any part and colon in any name, method, URI and all header fields can be read back from what is hashed |
| CacheKeys.KeysAgreeExactly | src/proxy/handler.rs:588-611 | two requests share a key if and only if method, URI and readable Accept-Encoding lines agree |
| CacheKeys.KeysAgreeOnEncodings | src/proxy/handler.rs:588-611 | the key depends on method, URI and the Accept-Encoding lines one by one, unreadable ones counting as empty, and on nothing else |
| CacheKeys.NulConfusesKeys | src/cache/key.rs:12-24 | with NUL a header field can pass for a piece of the URI |
| Hosts.PortIsStripped | src/proxy/handler.rs:769-780 | a name or IPv4 address loses its port and nothing else |
| Hosts.BracketsAreStripped | src/proxy/handler.rs:771-773 | a bracketed address loses brackets and whatever follows |
| Hosts.UnclosedBracket | src/proxy/handler.rs:771-773 | a bracket that is never closed is dropped |
| Hosts.BareAddressIsKept | src/proxy/handler.rs:774-777 | an address with two colons or more and no bracket is left as it is |
| Text.LowerIgnoresCase | src/proxy/handler.rs:802-808 | case is ignored for A to Z and for nothing else |
| Hosts.MatchIsLabelSuffix | src/proxy/handler.rs:802-808 | matching by byte offsets is: the pattern's labels are the last labels of the host, case aside |
| HtmlEscape.EscapeIsSubstitution | src/proxy/handler.rs:758-764 | five passes over the text equal one substitution per character |
| HtmlEscape.EscapeIsInvertible | src/proxy/handler.rs:758-764 | the text can be read back from the escaped one |
| HtmlEscape.NoMarkupLeft | src/proxy/handler.rs:758-764 | no angle bracket or quote is left in it |
| HtmlEscape.EscapeSpelled | src/proxy/handler.rs:758-764 | the five characters and what they become; every other stays |

## Left out

- Panics: a panic of a task is a step of the transition system, while it waits for the origin or between two chunks; its clients then see closure, and the delivery theorems speak of tasks that return. A panic inside the adding of a chunk or after the fetch returned is not modelled.
- Cancellation: a runtime that shuts down in the middle of a task is not modelled.
- File operations that fail or are interrupted, and reads that overlap a write of the same entry: operations succeed and a look-up is one step.
- Widths: byte counts and sizes are unbounded numbers; the program's are 64 bits wide and would overflow only beyond any disk or body limit. Numbers in headers are limited to 64 bits as in the program.
- Foreign files: names in the cache directory are arbitrary while walking, but a metadata file whose stem is shorter than four characters would stop the program when it evicts it; directories for such names are a convention of the model.
- Inflight.FinishTask: requires that the task's download is the listed one; that it always is, is what SingleFlight and GuardRemovesOwnEntry prove for all interleavings.
- Handler.RunTask: requires the same.
- Handler.SubscribeAndSpawn: runs the task to its end before it returns, and requires a download as JoinOrStartDownload leaves it when it starts one; that the client misses nothing in any other interleaving is DeliveryIsExact.
- Handler.HandleStreamingDownload: requires the same and runs the spawned task to its end before the client reads; all other interleavings are those of the transition system.
- Handler.HandleCacheableRequest: a joiner is answered with its subscription, and the wait for headers is the step ReadMeta of the transition system.
- Inflight.InflightDownloads.CompleteDownload: requires that the table still has its sender, which only this operation drops. Receivers that go away are counted in the transition system only.
- Service.ServeAll: one request is served to its end before the next begins; racing requests are the subject of RacingMissesServeTheOlder and of the transition system.
- Reading the headers and giving up the metadata subscription are one step of a client, and answering with a body follows at once.
- Error texts are the inner messages; the prefixes that the program's error type prints, the number of missed messages, and the 4xx and 5xx pages built from them are left out.
- Status codes that are out of range, and the Via, X-Cache and X-Cache-TTL fields added to responses: building a response is left out.
- The body of the request and the network client: their failures are one kind of upstream, unreachable with a reason.
- Package classification by URI and configuration: the lifetime for package files is a parameter, set or not.
- Names and header values are ASCII where the program compares or splits them; hosts with other characters are left out.
- Tunnels, the accept loop, connection limits, methods other than GET and HEAD, and the checks on allowed and blocked hosts beyond the matching itself: none of them touches the downloads, the tiers or the decisions modelled here.
- Eviction policy and capacity of the memory tier: it may forget anything, which is all that coherence needs.
