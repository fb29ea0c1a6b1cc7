# Verified models of the torrent-streaming service

The service streams torrents to browsers: streamers hold the torrents and cache their pieces, a
manager places torrents on streamers, a viewer application tracks who watches what and takes
payments, and an admin application imports torrent files and dumps the database.  This project
models the state machines of that service in Dafny and proves what they promise.

`dafny verify dfyconfig.toml` checks everything.  Each component has a module of its own:

| module | component |
|---|---|
| `FdCache` | the bounded LRU of reference-counted read handles of a streamer |
| `PrefixCache`, `Completion`, `PrefixPieces`, `Sums` | the two-tier piece storage of a streamer, what it calls complete, and the pieces it pins |
| `WatchTracker` | the viewer's reference counts per torrent, with cancellable drop timers |
| `WatchLog`, `WatchStore` | the watch history: heartbeats, flushes, and the upserts they end in |
| `Decimal` | exact decimal amounts: written by the billing code, read by the database |
| `Ledger` | invoices and their settlement |
| `ChainScan`, `ChainPoller` | the scanner that finds the payments: its polls in every interleaving with other uses of the ledger, and the poller itself |
| `Bencode`, `InfoBytes`, `TorrentFile` | the bencode decoder and the info bytes it captures |
| `SqlLiterals`, `SqlDump` | the writer of table dumps, and a reader of MySQL literals |
| `RateLimit` | the sliding-window limiter |
| `Placement`, `Registry` | placing torrents, and the map of who owns which |
| `Seqs` | facts about sequences |

The form is the same throughout.  A specification says on plain values what each step does, and
lemmas prove what every run of steps keeps.  A class with the fields of the original carries the
same steps out in place, with the original's loops, and each of its methods is proved to do what
the specification says.  Where several goroutines are involved, a step is one critical section,
and a run is any interleaving of steps.  Time is a parameter; so are random numbers, what the
network does, and the order in which a map yields its keys, which is left open.

Where the code does not do what one might expect of it, a lemma says exactly when it does:

- An "info" key nested after the torrent's own one takes over the bytes that are hashed, while
  the file list still comes from the top-level one.  The two agree if and only if nothing after
  the torrent's own "info" records another, or the same bytes (`InfoBytes.HashedInfoIsTopInfo`, and
  for encoded documents `TorrentFile.HashedInfoIsTopInfo`; a file where they differ is in
  `TorrentFile.NestedInfoIsHashed`).  The decoder's comment promises the raw bytes of the dict value
  under the "info" key; the code keeps those of the last such value, dict or not.
- A payment is matched by amount alone.  One that is seen again pays again if and only if an
  invoice created since has reserved its amount (`Ledger.ReplayPaysIff`; `Ledger.ReplayCanPayTwice`
  is such a run).
- Dropping a torrent leaves the in-memory completion of its cached pieces behind: exactly those
  are stale that were held at a drop and have not been marked since (`Completion.StaleExactly`).
- Completion is set before the lock that guards the cache is taken, and cleared after it has been
  released.  With others in between, a piece is cached but not complete if and only if it was
  inserted and not taken out since, and not called complete, or that was cleared since
  (`Completion.LateClearingIff`, with a run in `Completion.ClearingIsLate`).
- The eviction scores keep a piece somebody has yet to play apart from one every viewer has played,
  or nobody watches, if and only if torrents have at most 2^20 + 1 pieces; with 2^20 + 2 they can be
  equal, and with more the useful piece can score higher (`PrefixCache.ClassesSeparateIff`).
- A drop is decided when nobody watches, but the manager is called later.  Nobody watches until
  then if and only if no heartbeat for the torrent comes between
  (`WatchTracker.CallFindsUnwatchedIff`, with a run in `WatchTracker.DropCanOvertakeBeat`).
- A drop comes at least a grace period after the last viewer has left if and only if the last timer
  armed for the torrent was armed that long ago: the callback of an earlier timer may have been
  waiting for the lock (`WatchTracker.GraceIsKeptIff`, with a run in `WatchTracker.DropCanBeEarly`).
  It always does if no callback is late (`WatchTracker.PromptKeepsGrace`).
- An owner recorded while a reconciliation is asking the streamers is still the owner after it if
  and only if the round found the same owner, or found none and did not hear from this one
  (`Registry.LateOwnerIsKeptIff`, `Registry.LateOwnerCanBeLost`).
- An owner entry outlives its instance if and only if it was recorded, by an add, a probe or a round,
  when the instance was not registered, and since then the instance has not come back and nothing has
  dropped or replaced the entry (`Registry.OutlivesIff`; runs in `Registry.LateAddOutlives`,
  `Registry.FoundThenLeftOutlives` and `Registry.OutlivesNextRound`).
- A session that is resumed after its entry was forgotten starts again from nothing, and what is
  stored is the greatest total of its lives.  That is all that was credited to it if and only if at
  most one of its lives has earned anything (`WatchLog.StoredIsAllIff`, with a run in
  `WatchLog.SecondLifeIsLost`).
- A transfer in a block that the cursor has passed is looked up if and only if the poll that passed
  the block counted anything payable, and then settles the invoice that holds its amount if that
  waits for it at that moment (`ChainScan.WaitingIsSettled`; `Ledger.WhenTransfersCount` says that
  otherwise it changes nothing).  An invoice made just after the count can miss its payment
  (`ChainScan.LateInvoiceIsSkipped`).
- The limiter reads the clock before it takes the lock and forgets the stamps that are out of its own
  window.  It decides as the full history would if and only if what it has forgotten does not make the
  difference between room and no room (`RateLimit.DecidesFullyIff`), and so whenever no accepted stamp
  of the key lies in the window but not above the highest cutoff that has pruned it
  (`RateLimit.ClearDecidesFully`), as when calls get the lock in the order of their times
  (`RateLimit.OrderIsClear`).  Out of order it can exceed its limit (`RateLimit.DisorderExceedsLimit`).

## Model

| member | source | states |
|---|---|---|
| FdCache.HandlesAreSafe | streamer/storage_fdcache.go:46-143 | at every point of every interleaving of reads, drops and closes: a handle that a read holds is open, no handle is closed twice, and with no read in flight the open handles are exactly those in the map |
| FdCache.RunKeeps | streamer/storage_fdcache.go:46-143 | every interleaving keeps the invariant: an entry's reference count is the number of reads holding it, one in the map is open and alive, one out of it is dead while held and closed once when not |
| FdCache.NextKeeps | streamer/storage_fdcache.go:46-143 | each critical section keeps that invariant |
| FdCache.BeginBoundsMap | streamer/storage_fdcache.go:47-65 | a read's first section keeps the touched entry in the map as the most recently used, and leaves the map no larger than the larger of its cap and the number of reads in flight |
| FdCache.EvictedIs | streamer/storage_fdcache.go:114-135 | entry by entry: what stays in the map is as it was; what leaves nobody held, was used before every idle entry that stays, and left only while the map was over its cap; and the map ends within its cap unless reads hold everything in it |
| FdCache.PinIs | streamer/storage_fdcache.go:47-63 | a read takes the entry in the map or makes one, gives it one read more and the latest tick, and touches no other |
| FdCache.AllPinned | streamer/storage_fdcache.go:114-135 | a map whose every entry is pinned is no larger than the number of reads in flight |
| FdCache.UsedDiffer | streamer/storage_fdcache.go:61-63 | no two entries in the map were last used at the same tick, so the victim is unique |
| FdCache.EvictOneMore | streamer/storage_fdcache.go:117-135 | retiring the least recently used idle entry of a map over its cap extends an eviction in which every victim was used before every idle entry kept |
| FdCache.EndKeeps | streamer/storage_fdcache.go:69-74 | unpinning closes a retired handle exactly when its last read ends |
| FdCache.FdCache.ReadAtBegin | streamer/storage_fdcache.go:47-65 | the first critical section: finds or opens the handle, touches and pins it, then evicts; fails only when the path is not cached and cannot be opened |
| FdCache.FdCache.ReadAtEnd | streamer/storage_fdcache.go:69-74 | the second critical section: one reference fewer on the entry, and the file closed exactly if the entry has left the map and nobody holds it |
| FdCache.FdCache.EvictLocked | streamer/storage_fdcache.go:117-135 | terminates with the map within its cap or no idle entry left; what left was idle and used no later than any idle entry that stayed |
| FdCache.FdCache.FindLru | streamer/storage_fdcache.go:118-129 | the scan finds the least recently used idle entry, or nothing when a read holds every entry |
| FdCache.FdCache.RetireLocked | streamer/storage_fdcache.go:81-88 | removes the entry and closes its file, or marks it dead if a read holds it |
| FdCache.FdCache.Drop | streamer/storage_fdcache.go:92-98 | the path leaves the map, and its file is closed unless a read holds it |
| FdCache.FdCache.DropPrefix | streamer/storage_fdcache.go:103-111 | exactly the paths that start with the prefix leave the map, and their files are closed unless reads hold them |
| FdCache.FdCache.CloseAll | streamer/storage_fdcache.go:137-143 | so does everything |
| PrefixCache.ScoreOfAhead | streamer/storage_prefixcache.go:484-502 | a piece at or ahead of some playhead scores its distance from the nearest such playhead, if and only if that is no more than its score against each reader that has passed it |
| PrefixCache.ScoreOfBehind | streamer/storage_prefixcache.go:484-502 | a piece behind all playheads scores by its distance from the rearmost |
| PrefixCache.ScoreOfUnwatched | streamer/storage_prefixcache.go:484-488 | a piece of a torrent nobody watches scores by its index, above 2^30 |
| PrefixCache.ClassesSeparateIff | streamer/storage_prefixcache.go:473-502 | a piece somebody has yet to play always scores below one behind all readers, and that below one of an unwatched torrent, if and only if indices stay below 2^20 + 1; and never above, if and only if they stay below 2^20 + 2 |
| PrefixCache.TooFarAhead | streamer/storage_prefixcache.go:473-502 | a piece more than 2^20 ahead of its only reader scores at least as high as one right behind its own |
| PrefixCache.ReaderOnlyProtects | streamer/storage_prefixcache.go:478-483 | another reader of a watched torrent never raises a piece's score |
| PrefixCache.RoomIsMadeFairly | streamer/storage_prefixcache.go:417-471 | making room keeps the added piece, evicts only what may go, every victim scored at least as high as every evictable piece kept, and one victim fewer would have exceeded the budget |
| PrefixCache.UsefulPiecesGoLast | streamer/storage_prefixcache.go:449-502 | with at most 2^20 + 1 pieces, no piece some reader has yet to play is evicted while an evictable one behind all readers, or of an unwatched torrent, remains |
| Completion.StaleExactly | streamer/storage_prefixcache.go:185-225 | over any run of marking, unmarking, evicting and dropping, every cached piece is complete, and the complete pieces that are not cached are exactly those cached when their torrent was dropped and not marked since |
| Completion.StaleIsReachable | streamer/storage_prefixcache.go:185-225 | a run of two operations that leaves such a piece |
| Completion.LateClearingIff | streamer/storage_prefixcache.go:321-344 | with the setting and clearing of completion as steps of their own, in any interleaving: a piece is cached but incomplete if and only if it was inserted and not taken out since, and was not called complete or that was cleared since |
| Completion.ClearingIsLate | streamer/storage_prefixcache.go:436-446 | a run in which a victim is marked complete again while its clearing, after the lock, is late |
| Completion.PartsMakeWhole | streamer/storage_prefixcache.go:321-344 | with nothing in between, the steps of marking, unmarking and dropping amount to the whole operations |
| PrefixCache.Storage.AddLocked | streamer/storage_prefixcache.go:417-436 | the new piece is resident, victims go one by one as the most evictable while the budget is exceeded, until it holds or nothing may go; nothing happens if the piece was resident; completion is not touched yet |
| PrefixCache.Storage.Forget | streamer/storage_prefixcache.go:438-446 | clears the completion of exactly the victims |
| PrefixCache.Storage.AddCachePiece | streamer/storage_prefixcache.go:417-447 | both, with others coming between the locked part and the clearing |
| PrefixCache.Storage.MakeRoom | streamer/storage_prefixcache.go:427-435 | the eviction loop terminates and does just that: only other pieces go, none of a watched torrent under retainHot, none while the budget is kept, and as long as it is not, pieces go until none may |
| PrefixCache.Storage.PickVictim | streamer/storage_prefixcache.go:455-471 | the victim has the greatest score of all evictable pieces; none is found only if there is none |
| PrefixCache.Storage.EvictionScore | streamer/storage_prefixcache.go:484-502 | the loop computes the minimum of the scores against all readers |
| PrefixCache.Storage.CapFunc | streamer/storage_prefixcache.go:132-150 | the reported capacity is the budget plus the sizes of all resident prefix pieces, and of all cached ones under retainHot |
| PrefixCache.Storage.DropTorrent | streamer/storage_prefixcache.go:185-225 | exactly the torrent's pieces and readers are forgotten, the running totals remain the sums, only prefix completion is cleared |
| PrefixCache.Storage.OpenTorrent | streamer/storage_prefixcache.go:227-257 | the prefix pieces an earlier run left complete count as resident, each once |
| PrefixCache.Storage.MarkComplete | streamer/storage_prefixcache.go:321-331 | a piece becomes complete and then resident in its own tier only, and its victims are cleared; others come before and after the part that holds the lock |
| PrefixCache.Storage.MarkNotComplete | streamer/storage_prefixcache.go:333-344 | a piece is removed from residence and then from completion in its own tier only, with others in between |
| PrefixCache.Storage.Perform | streamer/storage_prefixcache.go:321-447 | what others do meanwhile: any sequence of those steps |
| PrefixCache.Storage.AddPrefixResident | streamer/storage_prefixcache.go:356-363 | a prefix piece is counted once, and the total stays the sum |
| PrefixCache.Storage.RemovePrefixResident | streamer/storage_prefixcache.go:365-372 | removing it takes off exactly its size |
| PrefixCache.Storage.RemoveCacheEntry | streamer/storage_prefixcache.go:504-511 | the same for a cached piece |
| PrefixCache.Storage.RegisterReader | streamer/storage_prefixcache.go:378-390 | the id is one no reader has had and starts at the first piece; every other reader of any torrent stays where it is, so the torrent gains just playhead 0 |
| PrefixCache.Storage.NoteReaderPos | streamer/storage_prefixcache.go:394-402 | moves that reader and no other, of any torrent, and only if it is registered |
| PrefixCache.Storage.UnregisterReader | streamer/storage_prefixcache.go:406-415 | removes that reader and no other; a torrent without readers has no entry |
| PrefixPieces.PrefixPieceIndices | streamer/storage.go:78-114 | exactly the pieces holding a byte of the first or last bytes of some non-empty video file; none if the piece length is unknown |
| PrefixPieces.RangeOfPieces | streamer/storage.go:83-92 | the pieces between those of two bytes are those that hold a byte between them |
| PrefixPieces.PinnedPiecesExist | streamer/storage.go:78-114 | all of them are pieces of the torrent when its files lie within it |
| WatchTracker.CountsAndTimers | viewer/watchtracker.go:62-160 | in every reachable state a count is the number of sessions, and a torrent with a drop pending is watched by nobody and has a timer that is armed or whose callback waits |
| WatchTracker.LostViewersAreOwed | viewer/watchtracker.go:62-160 | a torrent that was watched at some point of a run and no longer is has a timer armed, or a callback waiting, or its drop was decided since that point |
| WatchTracker.GraceIsKeptIff | viewer/watchtracker.go:130-151 | when a callback decides a drop, at least the grace period has passed since the last viewer left if and only if it has since the last timer for the torrent was armed; it has if that is its own timer, and if it has not, that timer is a newer one, still armed |
| WatchTracker.PromptKeepsGrace | viewer/watchtracker.go:130-160 | as long as every callback gets the lock when its timer fires, every drop comes at least the grace period after the last viewer has left, however often viewers have come and gone |
| WatchTracker.DropCanBeEarly | viewer/watchtracker.go:130-151 | a run in which a late callback drops a torrent as soon as its viewer has left again, and the newer timer drops it once more |
| WatchTracker.LeftIsLastDeparture | viewer/watchtracker.go:116-123 | the time noted for a torrent is that of the operation that last left it without viewers |
| WatchTracker.LastTimerIff | viewer/watchtracker.go:130-160 | while nobody watches a torrent, its timer stays the last one armed for it if and only if nobody has come back meanwhile |
| WatchTracker.CallFindsUnwatchedIff | viewer/watchtracker.go:141-170 | from a decided drop until the manager is called for it, nobody watches the torrent if and only if no heartbeat for it comes between |
| WatchTracker.RunKeeps | viewer/watchtracker.go:62-160 | any sequence of heartbeats, leaves, sweeps, firings and late callbacks keeps the invariant |
| WatchTracker.StepKeeps | viewer/watchtracker.go:62-160 | each of them keeps it, stale callbacks included |
| WatchTracker.DropsOnlyUnwatched | viewer/watchtracker.go:141-150 | a drop is decided only for a torrent no session watches, whichever timer it came from |
| WatchTracker.AbandonedIsDropped | viewer/watchtracker.go:130-151 | whatever else happens, as long as nobody comes back a timer armed for a torrent has decided its drop, or will when it fires |
| WatchTracker.SwitchIsLeaveAndJoin | viewer/watchtracker.go:68-77 | switching source is leaving one torrent and joining the other |
| WatchTracker.SweepSessions | viewer/watchtracker.go:100-110 | which sessions a sweep ends does not depend on the order of the map |
| WatchTracker.LastBeatIsKept | viewer/watchtracker.go:68-76 | in any run, a session watches what its last heartbeat said and was last seen when that came |
| WatchTracker.HeardIff | viewer/watchtracker.go:100-106 | so it was last seen at or after a time exactly if it has had a heartbeat since |
| WatchTracker.DropCanOvertakeBeat | viewer/watchtracker.go:141-150 | a run in which the manager is asked to drop a watched torrent |
| WatchTracker.Tracker.OnBeat | viewer/watchtracker.go:62-78 | a heartbeat refreshes, joins or switches, cancels the pending drop of the torrent it watches, and is the time the session was last seen |
| WatchTracker.Tracker.OnLeave | viewer/watchtracker.go:83-95 | ends that session and schedules a drop if it was the last |
| WatchTracker.Tracker.Sweep | viewer/watchtracker.go:100-110 | ends no session with a heartbeat within the TTL, and every other one |
| WatchTracker.Tracker.TimerCallback | viewer/watchtracker.go:141-150 | forgets whatever timer is pending and decides the drop exactly if no session watches the torrent |
| WatchTracker.Tracker.TimerFires | viewer/watchtracker.go:141 | a timer starts its callback only once the grace period is over |
| WatchTracker.Tracker.Schedule | viewer/watchtracker.go:130-151 | stops an earlier timer and arms a new one, or drops at once without a grace period |
| WatchTracker.Tracker.Cancel | viewer/watchtracker.go:155-160 | stops and forgets the pending timer |
| WatchTracker.Tracker.DropNow | viewer/watchtracker.go:164-170 | calls the manager for a decided drop, without another look |
| WatchStore.UpsertAllIs | viewer/store.go:1570-1575 | upserts leave, for every key, the greatest totals of those it had and those the rows bring, keep everything else of a key that was there, and add nothing else |
| WatchStore.OrderDoesNotMatter | viewer/store.go:1570-1575 | totals depend only on which rows were written, not on order or repetition |
| WatchStore.RetryConverges | viewer/store.go:1519-1552 | a retry after a partial write leaves the totals of one clean write |
| WatchStore.RetriesConverge | viewer/store.go:1519-1552 | however often a write fails part-way before it succeeds, the totals are those of upserting each attributable row once |
| WatchStore.Store.UpsertWatchSessions | viewer/store.go:1528-1552 | chunking and the row-by-row fallback amount to upserting every non-orphan row once and in order, two hundred to a statement; it fails only if a statement does, and then has upserted a leading part of them |
| WatchStore.Store.UpsertEach | viewer/store.go:1541-1549 | the fallback skips exactly the orphans of a chunk |
| WatchStore.Store.UpsertChunk | viewer/store.go:1554-1577 | one statement writes all rows or none, fails on an orphan, and after a lost reply may have been carried out |
| WatchLog.CleanIsWritten | viewer/watchlog.go:134-213 | whatever heartbeats land between a flush's halves, a clean entry stands exactly as it was in a batch the writer accepted, and the table holds at least its totals |
| WatchLog.EntryLeavesIff | viewer/watchlog.go:184-206 | in every step of a run: an entry leaves only at the end of a flush, and exactly if its last heartbeat is over ten minutes ago and it has been written as it stands, or is over an hour ago; otherwise only another heartbeat changes it |
| WatchLog.FailedFlushLosesNothing | viewer/watchlog.go:161-206 | however many flushes fail: what a session had is in the table after the first that succeeds, if those before it ended within an hour of its last heartbeat |
| WatchLog.SecondsAreBounded | viewer/watchlog.go:134-156 | an entry's seconds never exceed its last minus its first heartbeat, nor thirty times the heartbeats after the first |
| WatchLog.NothingCountsTwice | viewer/watchlog.go:161-213 | however flushes fail and are retried, no session is stored with more time than its heartbeats earned |
| WatchLog.StoredTotal | viewer/watchlog.go:184-212 | what is stored of a session is a total its entry has had in one of its lives, and no less than any it has had while clean |
| WatchLog.StoredIsGreatest | viewer/watchlog.go:197-206 | so it is the greatest total of all lives once every total has been reached by a clean entry |
| WatchLog.StoredIsAllIff | viewer/watchlog.go:134-206 | the stored total is then all that was ever credited to the session if and only if at most one of its lives has earned anything, and less otherwise |
| WatchLog.SecondLifeIsLost | viewer/watchlog.go:197-206 | a run in which forty seconds are credited to a session and thirty stored |
| WatchLog.LivesAdd | viewer/watchlog.go:134-156 | what is credited is the best life if there is one, and more than that if there are several |
| WatchLog.RunKeeps | viewer/watchlog.go:112-213 | every interleaving of the locked sections keeps the invariant of entries, rows being written and table |
| WatchLog.NextKeeps | viewer/watchlog.go:112-213 | each locked section keeps it |
| WatchLog.WatchedIsBounded | viewer/watchlog.go:151-153 | credited gaps sum to no more than the time that passed and thirty seconds each |
| WatchLog.WriteKeepsTable | viewer/watchlog.go:179-182 | what a write leaves loses nothing accepted before and holds nothing unearned |
| WatchLog.Log.OnPrepared | viewer/watchlog.go:112-129 | remembers the video for a user and torrent, if all are known, and changes nothing else |
| WatchLog.Log.OnBeat | viewer/watchlog.go:134-156 | a heartbeat of a prepared torrent makes an entry, or adds the whole seconds since the last one, thirty at most; any other is ignored |
| WatchLog.Log.FlushBegin | viewer/watchlog.go:165-177 | the snapshot holds exactly the dirty entries, once each |
| WatchLog.Log.FlushEnd | viewer/watchlog.go:184-212 | clears exactly what was written and has not moved since; keeps a clean entry for ten minutes after its last heartbeat, any other for an hour with its totals, and what was prepared for twelve hours |
| WatchLog.Log.Flush | viewer/watchlog.go:161-213 | an undisturbed flush that succeeds leaves nothing dirty |
| Decimal.AmountsIdentify | viewer/billing.go:30-40 | with dust in range, two invoice texts denote the same amount exactly when price and dust agree, and the dust adds less than a cent |
| Decimal.FormatAmountReads | viewer/billing.go:287-295 | an invoice's text denotes ten thousand millionths of a dollar for every cent of its price, and one for every unit of dust |
| Decimal.AmountIsPriceAndDust | viewer/billing.go:287-295 | which is the price in dollars, and on top of it the dust in millionths of a dollar |
| Decimal.ScaleDecimalReads | viewer/chain_evm.go:326-346 | a raw token amount is written as exactly itself over 10^decimals, without trailing zeros in the fraction |
| Decimal.TransferMatchesInvoice | viewer/chain_evm.go:326-346 | for any token of at least six decimals, a transfer denotes an invoice's amount exactly when its raw value is that amount in the token's units |
| Decimal.CastOfAmount | viewer/store.go:1104-1105 | the database's DECIMAL(36,18) holds an invoice's amount exactly |
| Decimal.CastOfTransfer | viewer/store.go:1151 | and that of a transfer of a token of up to eighteen decimals, clipped if it has too many whole digits |
| Decimal.ColumnComparesExactly | viewer/store.go:1143-1152 | the column holds the same for a transfer and an invoice if and only if the transfer is worth exactly the invoice's amount: a clipped one matches none |
| Decimal.ParseFormatInt | viewer/chain_evm.go:313-324 | a block cursor reads back as the number written |
| Decimal.ParseSignedIs | viewer/chain_evm.go:313-324 | a sign is allowed before digits, and nothing else |
| Decimal.LeadingZero | viewer/chain_evm.go:313-324 | and leading zeros do not matter |
| Decimal.DigitsDenote | viewer/chain_evm.go:324 | a number's digits denote it, without a leading zero |
| Ledger.LedgerIsSound | viewer/store.go:1099-1236 | after any run of creations, expiries and settlings: no two invoices hold the same amount in a namespace, exactly the pending ones hold one, exactly the paid ones were settled, each once, and the unlocked titles are those of the paid title invoices |
| Ledger.StepKeeps | viewer/store.go:1099-1236 | each operation keeps the invariant |
| Ledger.SettledIsFinal | viewer/store.go:1178-1204 | paid and expired are final, and an invoice's order never changes |
| Ledger.ReplayPaysIff | viewer/store.go:1143-1152 | a credited transfer seen again pays again if and only if an invoice created since has reserved its amount and can be paid and granted |
| Ledger.ReplayChangesNothing | viewer/billing.go:267-285 | so it changes nothing if its amount was not reserved again meanwhile |
| Ledger.ReplayCanPayTwice | viewer/store.go:1143-1152 | a run in which the same transfer pays two invoices |
| Ledger.WhenTransfersCount | viewer/billing.go:244-260 | a transfer changes the ledger exactly when a payable, grantable invoice holds its amount |
| Ledger.TransferPaysExactAmount | viewer/store.go:1143-1152 | which invoice a transfer pays: the one whose price and dust are worth exactly its raw value |
| Ledger.RenewalsStack | viewer/store.go:1208-1218 | after any passes, the expiry is the larger of the old date plus all days and the maximum over the passes of when one was settled plus its and all later days |
| Ledger.PlansStack | viewer/store.go:1202-1218 | after any run of the ledger, a user's expiry is that of the pass invoices they have paid, stacked in the order of settling; every paid invoice counts once, with the time and days of the operation that settled it |
| Ledger.PaidAsSettled | viewer/store.go:1190-1195 | an invoice is paid with the time and days of an operation that settled it |
| Ledger.SettledInOrder | viewer/store.go:1190-1195 | what was settled earlier stays earlier |
| Ledger.Store.CreateInvoiceRow | viewer/store.go:1099-1119 | a new pending invoice with its reservation, or a duplicate-key error exactly when its amount or reference is taken; it fails otherwise only if the connection does |
| Ledger.Store.CountPendingInvoices | viewer/store.go:1135-1141 | a scan of the rows counts exactly the payable invoices of the namespace |
| Ledger.Store.ExpireInvoices | viewer/store.go:1166-1175 | exactly the pending invoices that ran out are expired and give up their reservations; every other one stays as it was |
| Ledger.Store.MatchPendingInvoice | viewer/store.go:1147-1161 | finds the one pending invoice that has not run out and holds the amount, if there is one |
| Ledger.Store.SettleInvoice | viewer/store.go:1184-1236 | a pending invoice is paid and granted, field by field, or nothing happens; an error leaves all of it or none, and comes only from the connection or from an invoice that cannot be granted |
| Ledger.Store.CreateInvoice | viewer/billing.go:153-192 | with others coming before each try: reserves an amount that is free when it is tried, not below the price and less than a cent above it; gives up only after twelve clashes, and then has changed nothing |
| ChainScan.NoBlockMissed | viewer/chain_evm.go:168-233 | in every interleaving of polls with other uses of the ledger, whatever fails and however the tip moves: a block the cursor has passed was passed by a poll that saw it at least MinConf below the tip, in a range of at most 2000 blocks, and either counted nothing payable, or looked up every transfer in the block and settled the invoice that waited for it before the cursor moved |
| ChainScan.WaitingIsSettled | viewer/billing.go:230-265 | in every interleaving: the poll that passed a block looked up nothing if it had counted nothing payable; otherwise it looked up each transfer in the block, and an invoice that waited for it then was settled before the cursor moved |
| ChainScan.LateInvoiceIsSkipped | viewer/billing.go:230-265 | a run in which an invoice made just after the count is left waiting while the cursor passes the block |
| ChainScan.PollsAreSound | viewer/billing.go:230-265 | at every point of every interleaving, the transfers a poll has handled are the first ones of just the range it asked for, and each has been credited |
| ChainScan.CursorNeverGoesBack | viewer/billing.go:261-263 | the cursor never goes back |
| ChainScan.UndisturbedIsProcess | viewer/billing.go:244-260 | with nobody in between, lookup and settling of a transfer do what one atomic step would, and leave no payable invoice waiting for its amount |
| ChainScan.ProcessLeavesNothingDue | viewer/billing.go:244-260 | that step leaves none |
| ChainScan.LogIsObserved | viewer/chain_evm.go:215-232 | every log of a watched token with a number in it is observed |
| ChainScan.LogsSplit | viewer/chain_evm.go:205-214 | a query for some blocks is answered with just the logs of each block, in order |
| ChainScan.ObservationsJoin | viewer/chain_evm.go:215-232 | of some logs just those that count are observed, in order and each as often as it occurs |
| ChainPoller.Poller.Scan | viewer/chain_evm.go:168-233 | an unset cursor goes to the last block that lies deep enough; a set one moves on to it, by at most 2000 blocks, and stays if there is none that is new; just the transfers of the blocks between are reported; it fails only if the node does |
| ChainPoller.Poller.CollectObservations | viewer/chain_evm.go:215-232 | the transfers of watched tokens, in the order of their logs |
| ChainPoller.Poller.FindInvoice | viewer/billing.go:245-256 | looks up the invoice a transfer pays |
| ChainPoller.Poller.Settles | viewer/billing.go:270-285 | settles it, or gives the poll up, with or without having settled |
| ChainPoller.Poller.Handle | viewer/billing.go:244-260 | matches and settles one by one, stopping at the first error |
| ChainPoller.Poller.ScanChain | viewer/billing.go:230-265 | every poll, with others coming between its statements, continues an interleaving as above; if it succeeds the cursor has advanced as far as a scan does, and unless nothing was payable every transfer in the blocks between has been looked up and credited; it fails only if a call does or an invoice cannot be granted, and then the cursor stays unless only the reply to its saving was lost |
| ChainPoller.Poller.SaveCursor | viewer/billing.go:261-263 | saves the cursor only once every transfer has been handled |
| Bencode.DecodeEncode | admin/torrentfile.go:139-232 | decoding an encoded document followed by any bytes gives its meaning, stops exactly at those bytes, and leaves the bytes of the last "info" value to be completed |
| Bencode.MeaningAt | admin/torrentfile.go:188-205 | the value of a list holds those of its items, one for one |
| Bencode.MeaningOfKey | admin/torrentfile.go:207-232 | that of a dict holds just the keys of its entries, each with the value of the last entry that has it |
| Bencode.ParseInt64Is | admin/torrentfile.go:160-166 | a number is accepted exactly if it fits in 64 bits |
| Bencode.ValueEndsIn | admin/torrentfile.go:139-232 | a successful decode strictly advances and stays in bounds |
| Bencode.ValueLocal | admin/torrentfile.go:139-232 | decoding depends on nothing beyond the bytes it consumes |
| Bencode.InfoDoesNotMatter | admin/torrentfile.go:227-229 | what has been recorded affects neither the value nor where it ends |
| Bencode.InfoIsAWholeValue | admin/torrentfile.go:227-229 | for any input, the recorded bytes are one whole encoded value of the input |
| Bencode.ParseEncodeString | admin/torrentfile.go:169-186 | a string reads back whatever follows it |
| Bencode.ParseEncodeInt | admin/torrentfile.go:155-167 | so does a 64-bit integer |
| InfoBytes.HashedInfoIsTopInfo | admin/torrentfile.go:126-138 | for any bytes that decode: the value used is that of the last top-level "info", and the hashed bytes are that entry's if and only if nothing after it records another "info", or the same bytes |
| InfoBytes.EntriesAreRaw | admin/torrentfile.go:207-232 | what is recorded after a dict is what its entries record one after the other |
| InfoBytes.ValueRecords | admin/torrentfile.go:227-229 | what is recorded after a value is what is recorded within it, or else what was before |
| TorrentFile.HashedInfoIsTopInfo | admin/torrentfile.go:126-138 | for an encoded document: the same, in terms of what its entries mention |
| TorrentFile.NestedInfoIsHashed | admin/torrentfile.go:227-229 | a concrete file whose hash is that of a nested value |
| TorrentFile.TopInfoEntries | admin/torrentfile.go:207-232 | of repeated top-level "info" keys the last one is the value, and its bytes are recorded unless a later one is completed |
| TorrentFile.MentionedIsRecorded | admin/torrentfile.go:227-229 | bytes are recorded exactly if some dict within has an "info" key |
| TorrentFile.ParseTorrentFile | admin/torrentfile.go:53-98 | the info bytes and the file list of any input, or which of the four errors |
| TorrentFile.ListFiles | admin/torrentfile.go:74-89 | one file per dict of the list, with its position as index, its own length, and its path; other entries are skipped |
| TorrentFile.PathOfParts | admin/torrentfile.go:86 | a path is its parts, in order, with a slash between each two |
| TorrentFile.StringsJoin | admin/torrentfile.go:79-84 | the parts are the strings of the list, each one and in order |
| TorrentFile.Decoder.DecodeValue | admin/torrentfile.go:139-153 | the decoder advances and records just as the specification parses, and terminates |
| TorrentFile.Decoder.DecodeInt | admin/torrentfile.go:155-167 | so does the integer decoder |
| TorrentFile.Decoder.DecodeString | admin/torrentfile.go:169-186 | and the string decoder |
| TorrentFile.Decoder.DecodeList | admin/torrentfile.go:188-205 | and the list decoder |
| TorrentFile.Decoder.DecodeDict | admin/torrentfile.go:207-232 | and the dict decoder |
| SqlDump.TableReadsBack | admin/sqlconsole.go:437-501 | read as MySQL reads it, a table's INSERT text gives back all its rows, once each and in order, every value as its literal, each statement into that table and those columns |
| SqlDump.DumpReadsBack | admin/sqlconsole.go:460-501 | each batch reads back as one closed statement |
| SqlDump.BatchesHoldAllRows | admin/sqlconsole.go:484-499 | every row goes into exactly one statement, in order |
| SqlDump.BatchesAreBounded | admin/sqlconsole.go:484-499 | the rows of a statement stay under 1048576 bytes but for its last row, and only the last statement of a table is closed before they reach that |
| SqlDump.InsertReadsBack | admin/sqlconsole.go:460 | the head of a statement reads back as its table and columns |
| SqlDump.IdentReadsBack | admin/sqlconsole.go:569-571 | a quoted identifier reads back as its name, backticks included |
| SqlDump.RowReadsBack | admin/sqlconsole.go:469-482 | a row reads back as its literals |
| SqlDump.DumpTable | admin/sqlconsole.go:462-500 | the loop with its batch counter writes just that text |
| SqlDump.WriteRow | admin/sqlconsole.go:469-482 | the row buffer holds the row's text, binary values left out when blobs are not wanted |
| SqlLiterals.ValueReadsBack | admin/sqlconsole.go:503-537 | every value reads back as its literal, stopping at the delimiter after it |
| SqlLiterals.QuotedReadsBack | admin/sqlconsole.go:539-567 | arbitrary bytes survive quoting, whatever follows |
| SqlLiterals.HexReadsBack | admin/sqlconsole.go:526-528 | arbitrary bytes survive hexadecimal |
| SqlLiterals.QuoteSql | admin/sqlconsole.go:541-567 | the loop over the bytes writes the quoted literal |
| SqlLiterals.WriteSqlValue | admin/sqlconsole.go:503-537 | appends the literal of a value to the buffer |
| RateLimit.NoWindowOverflows | viewer/ratelimit.go:43-69 | deciding by the full history leaves no window of the given length, wherever it ends, with more than the limit of accepted events of a key |
| RateLimit.DecidesFullyIff | viewer/ratelimit.go:57-68 | the limiter decides as the full history would if and only if the stamps it has forgotten do not make the difference between room and no room; it never refuses what that would accept |
| RateLimit.ClearDecidesFully | viewer/ratelimit.go:57-68 | they do not when no accepted stamp of the key is in the window but not above the highest cutoff that pruned it |
| RateLimit.ClearRunKeepsLimit | viewer/ratelimit.go:43-86 | if every call for a key finds it so, what is accepted is what the full history would accept, and no window holds more than the limit |
| RateLimit.OrderIsClear | viewer/ratelimit.go:47-50 | it is so for every call when the lock is got in the order of the times read |
| RateLimit.DisorderExceedsLimit | viewer/ratelimit.go:47-51 | a run of four calls, the last of which read the clock before the third, that accepts three events in a window for two |
| RateLimit.NextKeeps | viewer/ratelimit.go:43-86 | every call and sweep keeps: what was accepted of a key is what is kept and what was pruned away, the latter at or below the highest cutoff that pruned it |
| RateLimit.PruneCounts | viewer/ratelimit.go:57-62 | what is pruned and what is kept are together what there was |
| RateLimit.RecentJoin | viewer/ratelimit.go:57-62 | just the stamps after the cutoff are kept, in order and each as often as it occurs |
| RateLimit.RateLimiter.Allow | viewer/ratelimit.go:43-69 | for a caller that read the clock at any time: accepts exactly if fewer than the limit of the stamps kept are in the window, records exactly the accepted event, and decides as the full history would when nothing that matters has been forgotten |
| RateLimit.RateLimiter.Decide | viewer/ratelimit.go:57-69 | the decision for one key, and what is kept of it |
| RateLimit.RateLimiter.Prune | viewer/ratelimit.go:57-62 | keeps exactly the stamps after the cutoff, in order |
| RateLimit.RateLimiter.SweepLocked | viewer/ratelimit.go:72-86 | every key is pruned, and none kept that has nothing left |
| Placement.FewestIsUnique | manager/loadbalance.go:55-70 | whatever order the map yields the instances in, least-torrents picks the same one |
| Placement.IdlestIsUnique | manager/loadbalance.go:23-53 | so does least-bandwidth |
| Placement.GreedyRunStaysEven | manager/loadbalance.go:55-70 | fresh torrents placed one after the other on a fixed fleet never widen the spread of counts beyond the larger of one and what it was |
| Placement.GreedyRunEvensOut | manager/loadbalance.go:55-70 | however uneven the fleet was, once as many fresh torrents were placed as it was short of its fullest instance, no count is over one more than another |
| Placement.PlacingKeepsSpread | manager/loadbalance.go:55-70 | one such placement does not |
| Placement.LessIsStrict | manager/loadbalance.go:41-53 | of two different loads exactly one is less |
| Placement.LessTrans | manager/loadbalance.go:41-53 | and the order is transitive |
| Placement.IdlestMeans | manager/loadbalance.go:41-53 | no instance has a lower egress than the one picked by bandwidth, nor as low a one and fewer torrents, nor as few and a lower ID |
| Placement.FewestMeans | manager/loadbalance.go:60-70 | no instance has fewer torrents than the one picked by count, nor as few and a lower ID |
| Placement.FirstDifferenceDecides | manager/loadbalance.go:41-53 | IDs compare by the first character in which they differ |
| Placement.PickLeastTorrents | manager/loadbalance.go:60-70 | no instance has fewer torrents than the one picked, nor as few and a lower ID |
| Placement.PickLeastBandwidth | manager/loadbalance.go:31-39 | no instance serves less, nor as much with fewer torrents, nor as many with a lower ID |
| Registry.ReconciledOwners | manager/registry.go:215-274 | after a round an entry of an instance that answered was listed by it, everything listed has an owner, and an entry of an instance that did not answer survives exactly if nobody who answered listed the torrent |
| Registry.NoGhosts | manager/registry.go:215-220 | no torrent that an instance stopped reporting is still counted against it |
| Registry.LateOwnerIsKeptIff | manager/registry.go:221-274 | an owner recorded during a round, and not touched since, is still the owner after it if and only if the round found the same owner, or found none and did not hear from this one |
| Registry.LateOwnerCanBeLost | manager/registry.go:221-274 | a round in which such an owner is lost |
| Registry.OutlivesIff | manager/registry.go:90-139 | over any run of acts and rounds: an entry outlives its instance if and only if it was recorded when the instance was not registered, and since then neither has the instance come back nor has the entry been dropped or replaced |
| Registry.LateAddOutlives | manager/router.go:114-133 | it does when the instance leaves while an add is forwarded to it |
| Registry.FoundThenLeftOutlives | manager/registry.go:221-274 | or when it leaves after it has been asked |
| Registry.OutlivesNextRound | manager/registry.go:262-274 | and such an entry survives the next round |
| Registry.Registry.ReconcileOnce | manager/registry.go:221-239 | asks the healthy instances, while others change the registry, and then rebuilds the owner map from what they answered |
| Registry.Registry.Perform | manager/registry.go:45-139 | what others do meanwhile: any sequence of entering, leaving, recording, forgetting and rebuilding |
| Registry.Registry.Gather | manager/registry.go:222-237 | the round finds an owner for exactly the torrents listed, among those that listed it, and notes exactly who answered |
| Registry.Registry.RebuildOwners | manager/registry.go:262-274 | what was found replaces the owner map, entry by entry, except for the entries of instances not heard from |
| Registry.Registry.OwnerCounts | manager/registry.go:155-163 | the count of every instance is the number of torrents it owns |
| Registry.Registry.PickInstance | manager/registry.go:167-173 | the strategy's choice among the instances that were healthy when listed, by what they own when that is counted, others acting in between; none only if there are none |
| Registry.Registry.HealthyInstances | manager/registry.go:103-113 | exactly the instances heard from within the TTL, no two different ones of one ID |
| Registry.Registry.PlaceAdd | manager/router.go:72-83 | with others acting between the steps: a torrent on a living owner is not placed again; a new one is placed where the strategy says and recorded, which would leave a least-torrents fleet, as it was counted, as even as it was; an error records nothing |
| Registry.Registry.DedupeAdd | manager/router.go:104-111 | the owner of the magnet's torrent, if it is alive |
| Registry.Registry.AddVia | manager/router.go:114-133 | ownership is recorded exactly when the streamer answers with an infohash, after whatever others did while the add was forwarded, and even if the instance has left by then |
| Registry.Registry.ResolveOwner | manager/router.go:202-209 | with others acting at every probe: the cached owner if it is alive and has the torrent, and otherwise the first healthy instance that has it, or none, as is then noted in the map |
| Registry.Registry.ReResolve | manager/router.go:213-222 | probes the healthy instances in turn, others acting at every probe, and records the first that has the torrent, or that nobody does |
| Registry.Registry.DeleteTorrent | manager/router.go:179-198 | a delete that succeeds leaves no owner; it fails exactly if the owner cannot be reached or refuses; others act at every probe and while it is forwarded |
| Registry.Registry.Register | manager/registry.go:45-61 | the same address keeps the instance and its session token, any other makes a new one; URLs lose their trailing slashes |
| Registry.Registry.Deregister | manager/registry.go:90-100 | the instance and exactly its owner entries are gone |
| Registry.Registry.DeregisterWithToken | manager/registry.go:79-88 | only with its own session token |
| Registry.Registry.ExpireStale | manager/registry.go:199-213 | exactly the instances not heard from for longer than the TTL are gone, with exactly their owner entries |

## Left out

- FdCache: the clock is unbounded where the original's has 64 bits, so the scan's starting value of all ones is not modelled; an entry and its file are one object, and the bytes read are not modelled.
- PrefixCache: sizes and reader ids are unbounded; the blob files are not modelled.
- PrefixCache.Storage.MarkComplete: others touch only the cached pieces meanwhile, not the readers or the prefix tier, and do not come between the clearings of two victims of one eviction.
- PrefixCache.Storage.DropTorrent: the persistent completion of the torrent's prefix pieces is cleared in the same step as their residence, where the original has released the lock; nothing else uses the torrent then.
- PrefixPieces: whether a file name is a video's is a flag; byte offsets are unbounded.
- WatchTracker: what the manager does when it is called; with no grace period the drop is decided in the same step; the clock is read under the lock, except by a sweep.
- WatchLog: entries are values in a map rather than objects; the disabled (nil) log; the loop that runs the flushes, which never overlap; the table is empty at first.
- WatchLog.Log.OnBeat: requires that the clock does not go back between calls.
- WatchStore: which rows are orphans does not change during one write; the collation of session ids; rows whose video is later deleted.
- Decimal.CastOfTransfer: tokens of more than eighteen decimals, whose amounts the column would round, are not covered; none is configured.
- Ledger: users and titles are never deleted and no one else writes plan_expires_at; the columns that only record a payment for display; each statement or transaction is one step.
- Ledger.Store.CreateInvoice: the chain's configuration and the plan's days are parameters.
- ChainScan: logs arrive with their token recognized and their data parsed; a block that lies MinConf below the tip no longer changes; block numbers beyond 64 bits; the loop of ticks over several chains; one poller per chain.
- Bencode: positions are mathematical integers, so a length whose end overflows a machine word is an ordinary out-of-bounds error here; nesting depth is not limited.
- TorrentFile: SHA-1 is left out, the model ends with the bytes that are hashed; which file is the video.
- SqlLiterals: how a float prints is a token without commas or parentheses, how a time prints is a text; a server mode in which backslashes do not escape.
- SqlDump: the CREATE TABLE text and the comments around it; a table has at least one column; the flushing of the buffered writer.
- RateLimit: the disabled (nil) limiter; the backing arrays that slices share.
- Placement: round robin, which takes instances in the arbitrary order of a map.
- Registry: HTTP calls are parameters that say what was answered; heartbeats that arrive while an operation is under way, and the time that passes meanwhile; enrollment; adding to a chosen instance; listing and fetching torrents.
- Third-party clients, ffmpeg, HTTP handlers, templates, cookies, translations and the browser scripts: no state worth an invariant, or foreign semantics.
- Reader counts in streamer/reaper.go across a drop and re-add, which are not exact.
