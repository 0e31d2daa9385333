# A verified model of the kit's components

This project models self-contained components of the Go kit and proves what they promise. A component that
changes state step by step under a mutex is a class whose methods are proved to do what a function on values
does; a component used by many goroutines at once is also a state machine over its steps, and its theorems are
about every run of that machine, that is, every interleaving. `dafny verify dfyconfig.toml` checks everything.

- `PriorityQueue.dfy`, `Limiter.dfy`: the heap with back-indexes and its non-strict comparison, the limiter's
  slot allocator on it, and the protocol of waiting, handing on, ageing, sleeping and ending.
- `TtlCache.dfy`, `ResourceCache.dfy`: the circular list with its map index, refining a plain map; and the
  life of a resource from checkout to cleanup on top of it.
- `PartitionLocks.dfy`: the refcounted per-id locks, for reading and writing or for writing alone.
- `SingleSender.dfy`: the sender, the receiver that may leave, and the closers.
- `EagerGroup.dfy`: the bounded error group.
- `TidwallPath.dfy`: the path printer, with a reader of its output.
- `Lcs.dfy` on `Subsequences.dfy` and `WhiteSpace.dfy`: longest common subsequence and similarity.
- `ExponentialBuckets.dfy`: histogram downscaling in int32 and uint64 arithmetic.
- `EtcdWatcher.dfy`: the event filter, once mode against all mode, and the copy a client keeps of the store.
- `Trie.dfy`, `Percentile.dfy`, `PartitionMapping.dfy`, `LoggerLevels.dfy`, `Sanitize.dfy`: prefix search,
  rolling percentiles, partition arithmetic and framing, the logger level cache, and UTF-8 repair.
- `Options.dfy`, `FiniteSets.dfy`, `Arithmetic.dfy`: a value that may be missing, sizes of finite sets, quotients and
  powers of two.

What turned out not to hold of the code is stated exactly, with an input at which it fails:

- A reloaded limit can be exceeded (`LoweredLimitIsExceeded`) and can leave a waiter beside a free slot
  (`RaisedLimitFreesASlot`). Over every run the count stays within the limit if and only if no reload goes below the
  slots taken when it happens (`EveryRunIsWithin`), and a waiter means that no slot is free if and only if no reload
  frees a slot while someone waits (`EveryRunIsFull`). Above the limit the count falls exactly by the slots given
  back with nobody waiting (`OvershootFallsOverRuns`), since `end` does not look at the limit.
- A resource drops out of the cache's books, never to be cleaned up, exactly when a Checkout creates another under
  its key at the very instant it expires (`EveryRunIsSafe`, `StepKeeps`, `ExpirationInstantLoses`): at that instant
  Get neither returns the entry (cachettl/cachettl.go:73) nor evicts it (line 60).
- A resource cleaned up stays in the maps `resources` and `checkouts` exactly if a checkin cleaned it up
  (`CheckinLeavesExactly`).
- A Get whose clock moves between its lookup and its cleanup can clean up the resource it returns: exactly when
  nobody has it checked out and it has expired by the last reading of the cleanup (`HitIsCleanedExactly`, `HitCanBeCleaned`).
- sync/prwlocker.go:36 and 48 say that an unlock by nobody that holds the lock panics. It does exactly if, further,
  no writer is pending (for Unlock) or no reader is blocked (for RUnlock): otherwise Go's mutex does not notice
  (`UnlockComesTo`, `UnlockUnderPendingWriter`, `RUnlockUnderWriter`).
- sync/eagergroup.go does not keep to its limit all the goroutines its wait group counts: one that has given its token
  back is still in the wait group while the next takes the token (`MoreLiveThanTheLimit`). The tokens and the functions
  in progress are within the limit (`EveryRunIsBounded`), and the live goroutines are more than it exactly if more are
  past giving their token back than tokens are free (`LiveExactly`).
- A function can begin once the group's context is done (`BeginsLate`): in every run exactly if a goroutine is then
  between its check of the context and the call (`NothingBeginsExactly`), and no more functions than such goroutines,
  hence than the limit, do (`LateBeginners`).
- Downscaling loses observations exactly when a sum overflows uint64 or an index leaves int32
  (`TotalIsKeptExactly`, `TotalsAreLost`).
- Similarity is not a number exactly for two different strings of white space (`SimilarMeans`,
  `BlanksAreNotANumber`).
- Aligned range starts, and the mappings made of them, come back from their indexes if and only if there are at most
  65536 partitions (`RangeStartsComeBackExactly`, `RangeStartRoundTripExactly`, `WrappingStart`), and an index comes
  back from its range start if and only if that start is in the 32-bit space (`IndexOfRangeStart`).
- With one partition a mapping comes back if and only if its one key is 0; else its node is lost without an error
  (`IndexRoundTrip`, `OneRangeStartRoundTrip`, `OnePartitionLosesItsNode`).
- ToPartitionRangeStart fails for every index at or above the number of partitions modulo 65536, which its guard
  compares in 16 bits (for more than one partition; `StartThenIndex`, `NoRangeStartExactly`, `NoRangeStartOf131072`).
- A marshalled mapping is read back exactly when its length fits 32 bits (`MarshalRoundTrip`): the mapping of all
  2^32 range starts is read back as the empty one (`FullMappingIsLost`).
- The logger level cache is right in every run exactly when no two loggers have the same name, which a dot in a
  Child name brings about (`LevelsAreRightExactly`, `DotsAreAmbiguous`).
- jsonparser/tidwall.go:419 says that dotted path elements are expanded; the code escapes their dots, and so does
  the model.

## Model

| member | source | states |
|---|---|---|
| PriorityQueues.RootIsBest | queue/priorityQueue.go:25-30 | under the non-strict comparison the root of a heap still beats or ties with every element |
| PriorityQueues.SwapUp | queue/priorityQueue.go:25-37 | a swap with the parent moves the one violation up and makes no other, ties included |
| PriorityQueues.SwapDown | queue/priorityQueue.go:25-37 | a swap with the better child moves the one violation down and makes no other, ties included |
| PriorityQueues.DownDone | queue/priorityQueue.go:78-84 | a sift down that stops has restored the heap if it moved, and else left at most the violation above its start, so that "down, else up" restores order after any change |
| PriorityQueues.RekeyedHeap | queue/priorityQueue.go:83-84 | changing one priority breaks heap order only around that element |
| PriorityQueues.PriorityQueue.Less | queue/priorityQueue.go:25-30 | compares the keys recorded for the two items: higher priority, then no later stamp |
| PriorityQueues.PriorityQueue.Swap | queue/priorityQueue.go:33-37 | exchanges two items and keeps every back-index right |
| PriorityQueues.PriorityQueue.Push | queue/priorityQueue.go:40-46 | the item joins the queue with its stamp; heap order and back-indexes are kept, the other items untouched |
| PriorityQueues.PriorityQueue.DropLast | queue/priorityQueue.go:49-60 | detaches the last item and marks it out of the queue with index -1; an empty queue gives none and stays as it is |
| PriorityQueues.PriorityQueue.Pop | queue/priorityQueue.go:49-60 | the item returned through the heap is best of all, is marked out of the queue, and is the only one gone; there is none exactly for an empty heap |
| PriorityQueues.PriorityQueue.Update | queue/priorityQueue.go:78-84 | after any change of priority the queue is a heap again of the same items; an item already popped is left alone, and one never pushed changes nothing in the queue |
| Slots.Limiter.Wait | sync/limiter.go:191-208 | when the count is below the limit takes a slot and leaves the queue as it is; else queues the caller under the priority it gives and the present time, and leaves the count and the others' entries as they are |
| Slots.Limiter.End | sync/limiter.go:238-250 | with nobody waiting gives the slot back, and else hands it to a waiter that no other beats, the count unchanged |
| Slots.Limiter.Tick | sync/limiter.go:224-229 | raises a waiter's priority by one up to the high one, and does nothing to a waiter popped meanwhile |
| LimiterProtocol.EveryRunIsSafe | sync/limiter.go:191-299 | in every interleaving the count is the number of slots owned, within the largest limit loaded, and acquisitions and releases of every execution balance |
| LimiterProtocol.FixedLimitHolds | sync/limiter.go:191-299 | in every interleaving with a limit that is not reloaded, 0 <= count <= limit and a waiter means count = limit |
| LimiterProtocol.StepKeepsInv | sync/limiter.go:191-299 | each step keeps count = owners, the queue equal to the executions that wait, and popped waiters matched one to one with the senders that popped them |
| LimiterProtocol.StepKeepsWithin | sync/limiter.go:193-201 | a step keeps the count within the limit if and only if it is no reload below the slots taken |
| LimiterProtocol.StepKeepsFull | sync/limiter.go:198-207 | a step keeps "a waiter means that no slot is free" if and only if it is no reload that frees a slot while someone waits |
| LimiterProtocol.EveryRunIsWithin | sync/limiter.go:191-299 | the count is within the limit in every state of a run if and only if every reload of the run is one that keeps it so |
| LimiterProtocol.EveryRunIsFull | sync/limiter.go:191-299 | a waiter means that no slot is free in every state of a run if and only if every reload of the run is one that keeps it so |
| LimiterProtocol.LoweredLimitIsExceeded | sync/limiter.go:193-207 | a run in which a lowered limit is exceeded and stays so with one more execution waiting |
| LimiterProtocol.RaisedLimitFreesASlot | sync/limiter.go:193-207 | a run in which a raised limit leaves a waiter beside a free slot |
| LimiterProtocol.OvershootFalls | sync/limiter.go:238-250 | at or above the limit a step lowers the count exactly if it gives a slot up with nobody waiting, and then by one |
| LimiterProtocol.OvershootFallsOverRuns | sync/limiter.go:238-250 | over a run at or above the limit the count falls by the number of such steps |
| LimiterProtocol.WaitersAreNotStranded | sync/limiter.go:238-250 | while someone waits, an owner of a slot can take a step that brings a hand-off nearer |
| LimiterProtocol.OwnersCanLeave | sync/limiter.go:238-289 | whoever runs can end or sleep, handing its slot on exactly if someone waits |
| LimiterProtocol.SendersAreReceived | sync/limiter.go:248-249 | whoever popped a waiter is never left blocked in its send, and the waiter then runs |
| LimiterProtocol.OvertakenLess | sync/limiter.go:238-250 | a hand-off serves a waiter of high priority or strictly shrinks the set of waiters that may be served before it; nothing but a newcomer stamped no later or of a higher priority grows that set |
| LimiterProtocol.BoundedOvertaking | sync/limiter.go:210-250 | over any run a waiter of high priority sees no more hand-offs to others than waiters stood ahead of it and such newcomers queued |
| LimiterProtocol.AgeingReachesHigh | sync/limiter.go:216-234 | a waiter's priority after a run is its first one plus its ticks, up to the high one, and its stamp does not change |
| LimiterProtocol.EveryWaiterIsQueuedAsAsked | sync/limiter.go:171-299 | in every run each waiter is queued under the priority it was begun with plus one for each tick since its last call of wait, up to the high one, stamped with the time of that call, after a sleep too; and exactly the executions told to end are over or about to wake the waiter they popped |
| LimiterProtocol.TakesOrQueues | sync/limiter.go:198-207 | a call of wait, by Begin or after a sleep, takes a slot exactly if one is free, and otherwise adds its own entry to the queue and changes nothing else |
| LimiterProtocol.FreesOrHandsOn | sync/limiter.go:238-250 | a call of end gives the slot back if nobody waits, and otherwise passes it to a waiter that no other beats, the count and the other entries unchanged; what the execution then is tells End from Sleep |
| TtlEntries.GetRefinesMap | cachettl/cachettl.go:53-82 | Get is a lookup in a plain map that refreshes a hit and then drops exactly the entries that expired before now, which are the ones evicted |
| TtlEntries.PutRefinesMap | cachettl/cachettl.go:86-116 | Put changes only the key's entry; a present key keeps the ttl it was created with |
| TtlEntries.GetKeeps | cachettl/cachettl.go:53-82 | Get keeps the entries sorted by expiration with distinct keys, and evicts in that order |
| TtlEntries.PutKeeps | cachettl/cachettl.go:86-136 | Put keeps the entries sorted by expiration with distinct keys |
| TtlEntries.StaleExactly | cachettl/cachettl.go:58-70 | stopping at the first entry not expired misses none that is |
| TtlCaches.Cache.Unlink | cachettl/cachettl.go:30-33 | a node leaves the circle, which stays one with next and prev inverse, and keeps its own links for the loop that goes on from it |
| TtlCaches.Cache.LinkBehind | cachettl/cachettl.go:126-132 | the splice puts the node right behind the one given and keeps the circle |
| TtlCaches.Cache.Add | cachettl/cachettl.go:122-136 | the node goes behind the last one that does not expire later |
| TtlCaches.Cache.Put | cachettl/cachettl.go:86-116 | list and map together move from one sorted sequence of entries to the next, in bijection before and after |
| TtlCaches.Cache.Cleanup | cachettl/cachettl.go:57-71 | removes exactly the leading expired entries from list and map, one callback each, in order |
| TtlCaches.Cache.Get | cachettl/cachettl.go:53-82 | returns the value of an entry that expires after now or the zero value, refreshes it if so configured, and reports the evictions in ascending order |
| ResourceLifecycle.EveryRunIsSafe | resourcettl/cache.go:71-149 | over every run no resource is cleaned up while checked out nor twice, whatever waits for its last checkin is checked out, and every resource created is cached, waiting or cleaned up if and only if no Checkout created another at its expiration instant |
| ResourceLifecycle.StepKeeps | resourcettl/cache.go:71-149 | each operation keeps the books right, and loses a resource exactly at such a Checkout |
| ResourceLifecycle.ExpirationInstantLoses | cachettl/cachettl.go:60-73 | a run that loses a resource |
| ResourceLifecycle.EvictKeeps | resourcettl/cache.go:134-149 | an eviction cleans up an idle resource once, and defers one that is checked out to its last checkin |
| ResourceLifecycle.CheckinKeeps | resourcettl/cache.go:117-131 | a checkin counts down once and cleans up exactly at the last checkin of an expired resource |
| ResourceLifecycle.CheckoutKeeps | resourcettl/cache.go:75-114 | a checkout keeps the books, and adds to the lost only the resource at its expiration instant it replaces |
| ResourceLifecycle.InvalidateKeeps | resourcettl/cache.go:89-98 | an invalidation keeps the books and loses nothing |
| ResourceLifecycle.InvalidateForgets | resourcettl/cache.go:89-98 | after an invalidation no later lookup of the key finds a resource; the one cached is cleaned up at once if its count was 0 and is marked for its last checkin otherwise; every other key is as a Get alone leaves it, and where nothing is cached the invalidation is that Get |
| ResourceLifecycle.CheckoutHandsOut | resourcettl/cache.go:75-114 | a checkout hands out the resource cached for the key, or else the one the caller's function gives, which later lookups find exactly until it expires: a ttl from now for a new or refreshed entry; a function that fails leaves what a Get leaves, as do other keys |
| ResourceLifecycle.HitStays | cachettl/cachettl.go:57-80 | a hit is not evicted by the cleanup of its own Get |
| ResourceLifecycle.CheckinLeavesExactly | resourcettl/cache.go:117-149 | over every run a resource cleaned up stays in both maps, with a count of 0, exactly if a checkin cleaned it up |
| ResourceLifecycle.AllIsCleanedUp | resourcettl/cache.go:117-149 | when everything is checked in and a Get reads a time after all expirations, everything made and not lost before has been cleaned up |
| ResourceLifecycle.EverythingIsCleanedUp | resourcettl/cache.go:71-149 | so has, after any run without such a Checkout, every resource ever created |
| ResourceLifecycle.HitIsCleanedExactly | resourcettl/cache.go:78-83 | with a clock that moves during Get, and is read at every node of its cleanup, a resource looked up is cleaned up by the same Get exactly if it is not checked out and has expired by the last of these readings; the checkout then hands out nothing |
| ResourceLifecycle.HitCanBeCleaned | resourcettl/cache.go:78-83 | a state and readings for which that happens |
| TtlEntries.LastReadingDecides | cachettl/cachettl.go:58-70 | a cleanup that reads a clock at every node removes what it would remove by its last reading alone, if the clock does not go back |
| TtlEntries.HitIsEvictedExactly | cachettl/cachettl.go:57-80 | with such a clock a hit is evicted by its own Get exactly if its expiration, refreshed or not, lies before the last reading |
| TtlEntries.LateGetInTime | cachettl/cachettl.go:53-82 | with a clock that stands still Get is as the other rows say |
| ResourceLifecycle.MissLeaves | cachettl/cachettl.go:57-81 | after a miss the key still has a resource exactly at its expiration instant |
| ResourceCaches.ResourceCache.OnEvicted | resourcettl/cache.go:134-149 | the maps change as the lifecycle's eviction says |
| ResourceCaches.ResourceCache.Checkout | resourcettl/cache.go:75-114 | the maps and the TTL cache change as the lifecycle's checkout says, and the lease handed out names its resource |
| ResourceCaches.ResourceCache.Invalidate | resourcettl/cache.go:89-98 | the maps and the TTL cache change as the lifecycle's invalidation does, which InvalidateForgets tells |
| ResourceCaches.ResourceCache.Checkin | resourcettl/cache.go:117-131 | the first call counts down and may clean up, later ones do nothing |
| LockProtocol.EveryRunIsSafe | sync/prwlocker.go:19-76 | when only holders unlock, in every interleaving no unlock is a misuse, an id has at most one writer and never one beside a reader, its references are its holders and waiters, all on the record in the map, an entry exists exactly while someone uses the id, and the map is empty when nobody does |
| LockProtocol.StepKeepsInv | sync/prwlocker.go:19-76 | each step keeps these, readers blocked only by a writer, and every dropped record as new |
| LockProtocol.NoConflict | sync/prwlocker.go:19-34 | two holders of one id both read |
| LockProtocol.WritersExclude | sync/plocker.go:19-47 | the plain locker, whose acquisitions are all exclusive, lets one holder in at a time in every run |
| LockProtocol.EveryRunIsAsRequested | sync/prwlocker.go:19-58 | in every run the acquisitions are exactly the calls not yet unlocked, each for the id and in the mode it asked for |
| LockProtocol.ReaderGoesAhead | sync/prwlocker.go:28-34 | a reader that comes to the mutex holds it if and only if no writer of the same id holds or is pending, and else is blocked |
| LockProtocol.BlockedUntilWriterUnlocks | sync/prwlocker.go:28-46 | a blocked reader holds with the unlock of a writer of the same id, and with no other step |
| LockProtocol.WriterHasItsTurn | sync/prwlocker.go:19-25 | a writer becomes pending if and only if no writer of the same id holds or is pending |
| LockProtocol.WriterGoesAhead | sync/prwlocker.go:19-25 | the pending writer holds if and only if no reader of the same id does; no writer does |
| LockProtocol.UnlockComesTo | sync/prwlocker.go:36-58 | an unlock, whoever calls it, is right if and only if someone holds the id in that mode, and a fatal error if and only if nobody does and no writer is pending or no reader is blocked |
| LockProtocol.UnlockUnderPendingWriter | sync/prwlocker.go:36-46 | a run after which an Unlock by nobody that holds goes unnoticed |
| LockProtocol.RUnlockUnderWriter | sync/prwlocker.go:48-58 | a run after which an RUnlock by nobody that holds goes unnoticed |
| LockProtocol.ReleaseSucceeds | sync/prwlocker.go:36-58 | a holder's unlock finds the record it holds, though it looks it up by id again, and is right |
| LockProtocol.NobodyIsStranded | sync/prwlocker.go:19-58 | while an id has users one of them can move |
| LockProtocol.RunsDrain | sync/prwlocker.go:19-58 | with no newcomers the steps of a run are bounded by those left, so all locks are taken and released |
| PartitionLocks.PartitionRWLocker.Info | sync/prwlocker.go:69-76 | returns the id's record, made and entered if there was none |
| PartitionLocks.PartitionRWLocker.Announce | sync/prwlocker.go:20-23 | counts one more reference to the id's record |
| PartitionLocks.PartitionRWLocker.Arrive | sync/prwlocker.go:33 | a reader holds the mutex at once, or is blocked while a writer holds or is pending |
| PartitionLocks.PartitionRWLocker.Claim | sync/prwlocker.go:24 | a writer becomes the pending one |
| PartitionLocks.PartitionRWLocker.Acquire | sync/prwlocker.go:24 | the pending writer holds the mutex once no reader does |
| PartitionLocks.PartitionRWLocker.Unlock | sync/prwlocker.go:37-46 | frees the mutex, lets the readers blocked by the writer in, drops a reference, and with the last one the entry; tells a fatal error and an unnoticed misuse from that |
| PartitionLocks.PartitionRWLocker.RUnlock | sync/prwlocker.go:49-58 | a reader leaves the mutex, drops a reference, and with the last one the entry; likewise |
| SenderProtocol.EveryRunIsSafe | async/single_sender.go:24-58 | in every interleaving nothing panics, so the channel is closed at most once and never sent on when closed; what arrives is a subsequence of what was sent, in order; every call that ended before the receiver left or Close cancelled delivered; a call that did not has cancelled the sender's context |
| SenderProtocol.StepKeepsInv | async/single_sender.go:31-58 | each step keeps mutual exclusion, one closing, cancellation before closing, and the order of what is received |
| SenderProtocol.RunIsOnward | async/single_sender.go:31-58 | what is received only grows, and not at all once the flag is set |
| SenderProtocol.CloseIsSeen | async/single_sender.go:48-58 | after a Close returned a receiver learns that the channel is closed, and nothing else can reach it |
| SenderProtocol.SendIsHeldUpOnlyByReceiver | async/single_sender.go:31-46 | in every run a call of Send under way is held up exactly if it is in its select, the receiver is in no receive, it has not left and Close was never called |
| SenderProtocol.LeavingFreesTheSender | async/single_sender.go:24-45 | in every run a send in its select can give up exactly if the receiver has left or a Close has made its second cancellation |
| SenderProtocol.EveryRunTells | async/single_sender.go:24-58 | in every run the send context is cancelled exactly by leaving or by Close, and the sender's context exactly by its parent, a send that gives up or Close; the steps taken tell where the receiver is, what was sent and who called Close |
| SenderProtocol.EndedBeforeIsReceived | async/single_sender.go:32-58 | in every run what was given to the calls that ended before the receiver first left or Close cancelled is the beginning of what is received, all of it; what follows is of later calls, in order; with neither, everything is received |
| SenderProtocol.CallsEnd | async/single_sender.go:31-58 | with no new call, the calls under way take no more statements than they have left |
| SingleSenders.SingleSender.Send | async/single_sender.go:31-46 | does the protocol's steps in order; delivers, or finds the sender closed or left, with the context cancelled |
| SingleSenders.SingleSender.Close | async/single_sender.go:49-58 | cancels both contexts and leaves the channel closed once, however often it is called |
| TidwallPath.RoundTrip | jsonparser/tidwall.go:355-440 | read as array indexes, literal keys and syntax, the printed path is for every non-empty path and either formatter the elements' meanings: an integer between brackets an index, anything else a key with all its characters literal |
| TidwallPath.PrintingIsInjective | jsonparser/tidwall.go:355-376 | paths print alike only if equal, also across the two printers, save for the empty path and the path of the empty key |
| TidwallPath.PartReads | jsonparser/tidwall.go:427-437 | an element's component is whole and reads back as what the element means |
| TidwallPath.BothAreFaithful | jsonparser/tidwall.go:360-375 | an integer key with a backslash or a colon before it reads back as the key |
| TidwallPath.EscapedReads | jsonparser/tidwall.go:460-492 | escaping puts a backslash before every punctuation character other than underscore and hyphen, leaves no bare dot, is undone by unescaping, and changes exactly the keys with such characters |
| TidwallPath.SyntaxIsUnsafe | jsonparser/tidwall.go:486-492 | the characters escaped are the 30 of ASCII punctuation other than underscore and hyphen, written out |
| TidwallPath.PrintedIsLiteral | jsonparser/tidwall.go:355-440 | the path splits at its bare dots into one component an element: a bare integer for an array index, what the formatter makes of an integer key, and for any other key one with no bare punctuation that unescapes to it |
| TidwallPath.TryFast | jsonparser/tidwall.go:382-415 | takes exactly the paths each of whose elements is an array index or a non-empty key that is no integer and has no punctuation but underscores and hyphens, prints them as the slow path does for every formatter, and computes the length of the result right |
| TidwallPath.Build | jsonparser/tidwall.go:421-440 | joins the elements' components, whatever the formatter |
| TidwallPath.GetPath | jsonparser/tidwall.go:355-363 | its result reads back as what the path means, its keys literally |
| TidwallPath.MutationPath | jsonparser/tidwall.go:368-376 | its result reads back as what the path means, its keys literally |
| TidwallPath.IsSignedInteger | jsonparser/tidwall.go:495-515 | recognises exactly an optional sign and at least one digit |
| TidwallPath.IsArrayIndexPath | jsonparser/tidwall.go:444-450 | recognises exactly an integer between brackets |
| TidwallPath.NeedsEscaping | jsonparser/tidwall.go:476-484 | finds out whether some character is punctuation other than underscore and hyphen |
| TidwallPath.Escape | jsonparser/tidwall.go:460-472 | puts a backslash before exactly those characters |
| Lcs.LcsIsLongest | lcs/lcs.go:27-53 | the recurrence is the maximum length over all common subsequences |
| Lcs.LcsBounds | lcs/lcs.go:27-53 | it is symmetric, at most either length, all of both exactly for equal sequences, and 0 exactly without a common element |
| Lcs.LongestCommonSubsequence | lcs/lcs.go:27-53 | the table yields that maximum |
| Lcs.SimilarMeans | lcs/lcs.go:8-23 | the similarity lies in [0, 1], is 1 exactly for the same words or strings and 0 exactly without a common word, and is not a number exactly for different strings of white space |
| Lcs.BlanksAreNotANumber | lcs/lcs.go:13-22 | two different blank strings have no similarity that is a number |
| Lcs.Similarity | lcs/lcs.go:8-23 | computes it, by the longest common subsequence of the words |
| Lcs.SimilarIsSymmetric | lcs/lcs.go:8-23 | does not depend on the order of the strings |
| Lcs.SimilarIsShare | lcs/lcs.go:13-22 | of other strings it is twice the greatest length of a common subsequence of their words over the number of their words |
| Lcs.FieldsAreWords | lcs/lcs.go:17-18 | the words are the string's runs without white space: with white space around them, and some between any two, they are the string |
| Subsequences.SubsequencePicks | lcs/lcs.go:25-27 | a subsequence is the elements at increasing positions |
| Subsequences.PicksSubsequence | lcs/lcs.go:25-27 | the elements at increasing positions are a subsequence |
| ExponentialBuckets.ShiftIsFloor | stats/internal/otel/prometheus/exporter.go:321-336 | shifting an index divides it by a power of two and rounds down, negative ones included |
| ExponentialBuckets.SumsOfSums | stats/internal/otel/prometheus/exporter.go:332-341 | every count goes to exactly one new bucket, so nothing is lost or counted twice before wrap-around |
| ExponentialBuckets.TotalIsKept | stats/internal/otel/prometheus/exporter.go:330-341 | the total is kept modulo 2^64, never exceeded, and kept exactly if no new bucket's sum overflows |
| ExponentialBuckets.TotalIsKeptExactly | stats/internal/otel/prometheus/exporter.go:313-347 | the function keeps the total if and only if no sum overflows and no index leaves int32, or all counts are 0 in the latter case |
| ExponentialBuckets.DownscalingComposes | stats/internal/otel/prometheus/exporter.go:321-341 | with indexes in int32, downscaling by a and then b is downscaling by a + b, offset and counts, for every offset |
| ExponentialBuckets.ResultComposes | stats/internal/otel/prometheus/exporter.go:313-347 | so is the function: two calls are one, also where counts are dropped |
| ExponentialBuckets.TotalsAreLost | stats/internal/otel/prometheus/exporter.go:313-347 | two buckets whose totals are lost, by a sum and by an index |
| ExponentialBuckets.PlaceOf | stats/internal/otel/prometheus/exporter.go:336-340 | with indexes in int32 the range guard never drops a count |
| ExponentialBuckets.LastIndex | stats/internal/otel/prometheus/exporter.go:322-324 | the last index is right if it fits int32 and comes out negative otherwise |
| ExponentialBuckets.ReturnedIsResult | stats/internal/otel/prometheus/exporter.go:313-347 | for up to 2^31 counts the int32 arithmetic downscales those whose indexes fit it and drops the others |
| ExponentialBuckets.PlacedNext | stats/internal/otel/prometheus/exporter.go:332-341 | a turn of the loop adds a count to its place behind the range guard, modulo 2^64 |
| ExponentialBuckets.Downscale | stats/internal/otel/prometheus/exporter.go:313-347 | a negative delta panics; else, for any number of counts, each new bucket holds the sum of those that int32 arithmetic sends to it |
| GroupProtocol.EveryRunIsBounded | sync/eagergroup.go:62-87 | in every interleaving the tokens in the semaphore are those of the goroutines that have one, within the limit, and no more functions are in progress than it |
| GroupProtocol.LiveExactly | sync/eagergroup.go:74-88 | the wait group counts the goroutines with a token and those past giving it back, and so more than the limit exactly if these are more than the free tokens |
| GroupProtocol.MoreLiveThanTheLimit | sync/eagergroup.go:85-88 | a run with a limit of 1 and two live goroutines |
| GroupProtocol.WaitTellsAll | sync/eagergroup.go:53-97 | when every Go precedes Wait, Wait returns nil if and only if every function handed to Go ran and returned nil, and otherwise the first error recorded |
| GroupProtocol.ErrorsHaveSources | sync/eagergroup.go:53-97 | in every run each error recorded, and so the one kept, was returned by a function or is the context's, which is that of the first cancellation |
| GroupProtocol.NobodyCommitsOnceDone | sync/eagergroup.go:50-78 | once the context is done no goroutine passes its check any more |
| GroupProtocol.LateBeginners | sync/eagergroup.go:50-78 | the functions that begin once the context is done are of goroutines past their check by then, with a limit no more than it; no other ever begins |
| GroupProtocol.NothingBeginsExactly | sync/eagergroup.go:75-78 | once the context is done no function begins, whatever follows, if and only if no goroutine is between its check and the call |
| GroupProtocol.NothingNewStarts | sync/eagergroup.go:53-60 | once the context is done, a call of Go that has not checked it yet, or has not come yet, never starts a goroutine |
| GroupProtocol.BeginsLate | sync/eagergroup.go:75-78 | a run in which a function begins once the context is done |
| GroupProtocol.NobodyIsStranded | sync/eagergroup.go:53-88 | a call of Go that waits can go on, or a live goroutine or whoever is inside errOnce can |
| GroupProtocol.WaitIsNotStranded | sync/eagergroup.go:74-97 | a Wait under way can go on, or a live goroutine can |
| GroupProtocol.CallsEnd | sync/eagergroup.go:53-97 | with no new call, and functions that return, calls, goroutines and Wait take no more steps than they have left |
| GroupProtocol.StepKeepsInv | sync/eagergroup.go:53-97 | each step keeps one token a goroutine that has not given it back, the error the first recorded, one call inside errOnce, and every call's result told |
| EagerGroups.EagerGroup.Go | sync/eagergroup.go:53-89 | starts a goroutine with a token, or records the context's error |
| EagerGroups.EagerGroup.Record | sync/eagergroup.go:80-83 | the first error is kept and cancels the context; later ones change nothing |
| EagerGroups.EagerGroup.Body | sync/eagergroup.go:74-88 | runs the function unless the context is done, records an error once, gives the token back and leaves the wait group |
| EagerGroups.EagerGroup.Wait | sync/eagergroup.go:93-97 | returns the error recorded and leaves the context done, with its own error if it was done before |
| EtcdWatcher.OnceIsFirstOfAll | etcdwatcher/etcdwatcher.go:133-318 | on the same snapshot, responses and answers once mode sends what all mode sends less the later events of each key, and no key twice, if and only if the snapshot's events have different keys |
| EtcdWatcher.EverythingSentPasses | etcdwatcher/etcdwatcher.go:198-366 | every event sent, in any mode, passes the filter and is of a type asked for, also one the gate has brought up to date |
| EtcdWatcher.SentExactly | etcdwatcher/etcdwatcher.go:133-366 | in all mode what is sent is, of the snapshot and then of the watch, the event of everything asked for that passes filter and gate before the first failure, once each, in order, then the failure; a gate lets a put through as it is if it asks nothing and as the key is now if its conditions are met; a failing snapshot gives its failure alone; none mode sends the snapshot's part |
| EtcdWatcher.NothingElseIsSent | etcdwatcher/etcdwatcher.go:133-366 | in every mode each event sent comes of something the snapshot or the watch told; with a gate a put is sent only if the gate asked nothing, as it arrived, or if its conditions were met, as the key is now, so nothing is sent for conditions not met or a key that is gone |
| EtcdWatcher.SnapshotKeysDiffer | etcdwatcher/etcdwatcher.go:185-217 | they have, if the snapshot's keys differ and the gate answers about the key asked |
| EtcdWatcher.FollowersHaveTheStore | etcdwatcher/etcdwatcher.go:133-318 | in all mode for all types without filter or gate, after the snapshot and after each change the events sent so far fold to the store as it was then, with values, revisions and versions |
| EtcdWatcher.FirstHasNoKeyTwice | etcdwatcher/etcdwatcher.go:37-40 | the first events per key are of different keys, and of all the keys |
| EtcdWatcher.LoadInitialData | etcdwatcher/etcdwatcher.go:164-218 | the snapshot's events up to the first failure, that of the client included; what these are SentExactly and NothingElseIsSent tell |
| EtcdWatcher.WatchChanges | etcdwatcher/etcdwatcher.go:221-319 | sends what the responses give event by event, up to the first failure, and in once mode nothing for a key seen; what these are SentExactly and NothingElseIsSent tell |
| EtcdWatcher.Watch | etcdwatcher/etcdwatcher.go:133-161 | sends the snapshot and then the changes, or the failure to load, which SentExactly and NothingElseIsSent put in terms of filter, types and gate |
| Tries.Trie.Insert | trie/trie.go:38-57 | exactly the trimmed word joins the words, unless empty; the nodes stay a tree with no node the words do not need |
| WhiteSpace.TrimmedIsMiddle | trie/trie.go:39 | what trimming leaves is the middle of the text, with nothing but white space on either side |
| Tries.Trie.Traverse | trie/trie.go:94-123 | succeeds if and only if some word is a prefix of the input, and builds the shortest such word if asked |
| Tries.Trie.GetMatchedPrefixWord | trie/trie.go:73-75 | finds the shortest word that is a prefix of the input |
| Tries.Trie.HasMatchedPrefixWords | trie/trie.go:89-92 | finds out whether there is one |
| Tries.NoWordBeyond | trie/trie.go:98-102 | past a missing child no longer word can match |
| Percentile.PercentileTracker.Observe | stats/metric/percentile.go:76-91 | the ring holds exactly the last observations, as many as the capacity, in order |
| Percentile.PercentileTracker.Percentile | stats/metric/percentile.go:94-114 | the least value of the window that at least p percent of the window's values do not exceed; none exactly for an invalid p or window or an empty window |
| Percentile.RankIsPercentile | stats/metric/percentile.go:118-125 | the element of nearest rank in the sorted values is that least value |
| Percentile.NearestRankPercentile | stats/metric/percentile.go:118-125 | returns it |
| Percentile.WriteUnrolled | stats/metric/percentile.go:82-90 | writing at next drops the oldest element of a full ring and appends to any |
| PartitionMapping.IndexRoundTrip | partmap/partitionmapping.go:81-127 | indexes to range starts and back is the identity, and does not fail, for indexes below the number of partitions, and beyond while their starts are in the 32-bit space; with one partition exactly if the one index is 0 |
| PartitionMapping.OneRangeStartRoundTrip | partmap/partitionmapping.go:85-90 | with one partition a mapping by range start comes back exactly if its range start is 0 |
| PartitionMapping.OnePartitionLosesItsNode | partmap/partitionmapping.go:85-119 | with one partition the mapping of 5 to 7 becomes that of 0 to 0 both ways |
| PartitionMapping.RangeStartRoundTrip | partmap/partitionmapping.go:81-127 | range starts to indexes and back is the identity for aligned mappings of 2 to 65536 partitions |
| PartitionMapping.RangeStartRoundTripExactly | partmap/partitionmapping.go:81-127 | every aligned mapping comes back, in whatever order the iterations go, if and only if there are at most 65536 partitions |
| PartitionMapping.RangeStartsComeBackExactly | partmap/partitionmapping.go:91-99 | every aligned range start comes back from its index if and only if there are at most 65536 partitions |
| PartitionMapping.WrappingStart | partmap/partitionmapping.go:98-99 | beyond, the start of window 65536 has the index 0 |
| PartitionMapping.ToPartitionIndexMapping | partmap/partitionmapping.go:81-102 | fails exactly for no partitions, for one with other than one entry, or for a range start not aligned; else every entry is there under its index |
| PartitionMapping.ToPartitionMapping | partmap/partitionmapping.go:110-127 | fails exactly for no partitions or for one with other than one entry; else every entry is there under its range start |
| PartitionMapping.IndexOfRangeStart | partmap/partitionmapping.go:120-124 | an index comes back from its window's start if and only if that start is in the 32-bit space, as it is for every index below the number of partitions; the start is then aligned and does not wrap around |
| PartitionMapping.RangeStartOfIndex | partmap/partitionmapping.go:91-99 | an aligned start comes back from its window's number, for up to 65536 partitions |
| PartitionMapping.StartThenIndex | partmap/partitionmapping.go:135-161 | ToPartitionRangeStart succeeds if and only if there is one partition or the index is below their number modulo 65536, with the start of that window, which ToPartitionIndex takes back, but for an index other than 0 of one partition |
| PartitionMapping.IndexThenStart | partmap/partitionmapping.go:135-161 | an aligned start goes to its index and back if and only if its window is below the number of partitions modulo 65536, and with one partition if and only if it is 0 |
| PartitionMapping.NoRangeStartExactly | partmap/partitionmapping.go:135-148 | ToPartitionRangeStart fails for every index if and only if the number of partitions is 0 modulo 65536 |
| PartitionMapping.NoRangeStartOf131072 | partmap/partitionmapping.go:142 | for instance for 131072 partitions |
| PartitionMapping.MarshalRoundTrip | partmap/partitionmapping.go:23-78 | reading what was marshalled, in any order of the iteration and whatever follows, gives back the mapping if and only if its length fits 32 bits, and else the empty one |
| PartitionMapping.FullMappingIsLost | partmap/partitionmapping.go:26 | the mapping of all 2^32 range starts is read back as the empty one |
| PartitionMapping.ShortReadKeepsSome | partmap/partitionmapping.go:63-76 | bytes cut short are an error that leaves exactly the entries read before |
| PartitionMapping.Marshal | partmap/partitionmapping.go:23-47 | writes the length and then each entry once, in some order, so that the bytes are read back as the mapping if and only if its length fits 32 bits |
| PartitionMapping.BytesAreBigEndian | partmap/partitionmapping.go:26-41 | the bytes of a number are its digits in base 256, the weightiest first |
| PartitionMapping.BodyIsEntries | partmap/partitionmapping.go:31-41 | each entry takes six bytes, four for its range start and then two for its node |
| PartitionMapping.Unmarshal | partmap/partitionmapping.go:50-78 | reads as many entries as the length says, or fails if the bytes run out, keeping those read so far; without a length the mapping stays as it was |
| PartitionMapping.Partition32 | partmap/murmur.go:13-21 | the hash lies in exactly one window, the one returned, whose index is below the number of partitions exactly for hashes inside the windows |
| PartitionMapping.PowersOfTwoCover | partmap/murmur.go:7-21 | for a power of two the windows are the whole 32-bit space |
| PartitionMapping.WindowIsWidest | partmap/murmur.go:13-21 | the windows are as wide as that many can be within the 32-bit space |
| LoggerLevels.LevelsAreRightExactly | logger/config.go:26-57 | through any level changes and queries every answer is the level of the nearest configured ancestor, or the root's, if and only if no two loggers have the same name |
| LoggerLevels.AmbiguityMisleads | logger/config.go:46-56 | for any two loggers of one name a run that answers wrong |
| LoggerLevels.DotsAreAmbiguous | logger/logger.go:140-150 | a family of loggers that a name with a dot makes ambiguous |
| LoggerLevels.DotFreeIsUnambiguous | logger/logger.go:140-150 | loggers built from names without dots have different names |
| LoggerLevels.DotFreeNames | logger/logger.go:140-150 | joining names without dots is injective |
| LoggerLevels.AskIsRight | logger/config.go:41-57 | a query answers right and leaves a right cache |
| LoggerLevels.LevelsAreLastSet | logger/config.go:26-38 | over any run the root's level, and that of each name, is the one last set on it and else its first one: setting one name's changes no other's, and queries change none |
| LoggerLevels.AnswersAreEffective | logger/config.go:26-57 | after any run over loggers of different names a query answers the level last set on the logger, or else configured for it at first, or else its parent's |
| LoggerLevels.Factory.SetLogLevel | logger/config.go:26-38 | sets the root's or a name's level and drops the cache; an unknown level changes nothing |
| LoggerLevels.Factory.GetLoggingLevel | logger/config.go:41-57 | answers and caches as the specification does, parents included |
| Sanitize.SanitizedIsWellFormed | utf8/sanitize.go:14-23 | the result is well-formed UTF-8 by section 4 of RFC 3629 |
| Sanitize.UnchangedExactly | utf8/sanitize.go:14-23 | exactly the well-formed sequences stay as they are |
| Sanitize.OnlyReplaces | utf8/sanitize.go:14-23 | a byte changed was not ASCII and becomes a question mark |
| Sanitize.WellFormedExactly | utf8/sanitize.go:14-23 | the well-formed sequences are exactly the encodings of sequences of characters, by the encoder of section 3 of RFC 3629 |
| Sanitize.SanitizesFromTheFront | utf8/sanitize.go:14-23 | from the front, a character's bytes stay and a byte with which no character's bytes begin is replaced |
| Sanitize.Sanitize | utf8/sanitize.go:14-23 | the slice is repaired in place, its length kept |

## Left out

- Time is a non-decreasing integer given to each operation; tickers, timers and sleeps are steps that may come at any point.
- The limiter's panic for a limit that is not positive, its statistics and its totals of time; an execution is used by one goroutine at a time.
- The TTL cache and the resource cache do each public operation in one step, and with one clock reading but for what HitIsEvictedExactly and HitIsCleanedExactly say: nothing is claimed about a Get of the TTL cache running beside a checkout's count of another key, nor about deadlock between the cache's mutex and the TTL cache's, which nest in opposite orders (resourcettl/cache.go:108-112 against cachettl/cachettl.go:54-64).
- TtlCaches.Cache.Put: requires an expiration not before the zero time of the list's root, below which the search in `add` would not end; the same holds of a refresh in Get.
- Cleanups run in goroutines of their own; the order recorded is that in which they are started. Functions that are called for cleaning up by type, and resources made by a caller's function that panics, are not modelled.
- The order in which Go's mutex serves writers that wait for their turn, and what a mutex does after a misuse it did not notice. RWMutex, the handle of one id, only passes on.
- PartitionLocker is the same text as PartitionRWLocker with one mode and has no class of its own; its mutex has no pending writer, a turn and the holding being one step, and so notices every misuse.
- SingleSenders.SingleSender.Send: the object is called while its mutex is free and when the select does not block; all other interleavings are those of the protocol, which is on values.
- SingleSenders.SingleSender.Close: called while the object's mutex is free; CancelBoth and CloseChannel are its parts before and after the wait for it.
- EagerGroups.EagerGroup.Go: likewise, for a select that does not block; a function that panics is not modelled.
- EagerGroups.EagerGroup.Wait: from the moment the wait group is at zero; its waiting is a step of the protocol.
- Lcs.Similarity: floats are real numbers with one value that is not a number; rounding is not modelled.
- Percentile.PercentileTracker.Percentile: over real numbers; p and the observations are numbers, and Go's rounding can shift a rank.
- Strings are sequences of code points in the trie and in similarity, so bytes that are no UTF-8 are not modelled there.
- What gjson and sjson make of a path is the reader stated in TidwallPath.dfy; their code is not part of this model.
- gzip around a marshalled mapping, and the murmur3 hash, for which any 32-bit value stands.
- PriorityQueues.PriorityQueue.Pop: the panic of the heap's swap on an empty queue is a result of none.
- The watcher's client, its context and the goroutines around its sender; what etcd answers is given.
- LoggerLevels.Factory.GetLoggingLevel: a query is one step, so a level change in the midst of one is not modelled.
- Cloud, Kafka, SFTP, docker, HTTP and profiler code, throttling, configuration and the documentation generator: plumbing over libraries that are not part of this model.
