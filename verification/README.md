# A verified model of shrt-go's storage engine

shrt-go is a URL shortener. This project models its storage engine and the small stateful
algorithms beside it, and proves what they promise.

* **The log-structured store.** Every instance keeps a table in memory and appends printed
  lines (rows, hit deltas, tombstones) to a log of its own; a snapshot compacts the log, and
  siblings read each other's logs by byte offset. `LogLine`, `LineRoundTrip`, `LogFile` and
  `OpLog` are about bytes: how a line is printed, escaped, found in a torn or growing file,
  and parsed back. `Table` is the fold that applies parsed lines. `Instance` says what one
  instance is and what each operation makes of it, and `Store` is the imperative store, a
  class over the bytes themselves, each of whose methods is proved to do what `Instance`
  says. `Recovery`, `OwnHits` and `Reboot` are about crashes and compactions; `Cluster` is about
  the rows of N instances over one directory, `HitSteps`, `HitRestarts`, `HitConvergence`,
  `HitRoom`, `HitLoss` and `HitVisits` about their hit counters, and `Truncation` about readers of a
  log that is compacted. `Answers` ties what a resolve answers to what the logs say, and `Lifetime`
  what a caller is answered, before and after a restart, to what was asked for; `Polls` and
  `Codes` support them.
* **The cached stores.** `RowValue` is how a link is stored as text and where; `Cache` the
  bounded FIFO cache with its time limit; `KvRows` one read through it and what it may hold;
  `KvStore` the store over a key-value server in both layouts; `PebbleStore` the one over an
  embedded database; `BulkRows` creation in bulk on either; `Staleness` several processes
  over one server. `KvRequests`, `KvLifetime` and `PebbleLifetime` say what a caller gets from the
  two over any calls.
* **The wire codec** (`RespCodec`), **the token bucket** (`RateLimit`) and **the per-second
  ring** (`Metrics`, and `Readout` for a reader of its text). `Formats` writes out, byte by byte, what
  other programs find in a log, in a key-value server and on the wire.

Conventions. A byte string is a `string` with one char a byte. Go's `int64` and `int32` are
subset types with explicit wrap-around (`Ints`). Every public operation is one atomic step.
The clock and the random draws are parameters; the order in which Go goes through a map is an
arbitrary one (`Lists`, `order`), and so is the stray entry an eviction hits (`victims`).
Float tokens are `real`.

Where the code does less than one might expect, the exact condition is proved:

* `OwnHits.UpdateRecovered`: after an update, recovery counts right exactly when no hit of the
  link had been logged; `OwnHits.UpdateForgets` is a run in which one had.
* `OwnHits.CreatedRecovered`: after a removed code is made again, recovery counts right exactly
  when the hits logged without a row and those pending add up to nothing;
  `OwnHits.CreationRemembers` is a run in which they do not.
* `OwnHits.CompactCrashHits`: a compaction that stops between the rename and the truncate
  leaves a log whose deltas the new snapshot already counts, so rows are safe but hits are not.
  The comment at internal/aof/aof.go:140-141 calls applying a row again idempotent, and it is
  (`OwnHits.SnapThenLog`); the hit deltas of the same file are not (`OwnHits.CompactCrashDoubles`).
* `HitConvergence.HitConvergence`: hit counters converge exactly when what a full stray
  table dropped adds up to nothing, and in all runs with at most m links exactly when m is
  below the capacity of a stray table (`HitLoss.AgreeIff`); `HitLoss.HitsDiverge` is a run at
  that capacity in which they do not.
* `Truncation.ReadEnough` and `Truncation.LookInTime`: a reader of a log that is compacted keeps
  the owner's rows exactly when what it had not read changes no row, and, having read all,
  exactly when it is sure to look before the file is as long again.
* `RowValue.OldestLayout`: the oldest value layout is read back exactly when the URL has no bar.
* `PebbleStore.PebbleStore.ShortenMany`: bulk creation gives two URLs one code exactly when
  two of its draws collide in a committed batch; `PebbleStore.PebbleStore.HitsReported`: hits
  are reported exactly once a counter is stored.
* `RateLimit.EvictionTransparent`: dropping idle buckets goes unnoticed exactly when
  `burst * 1000 <= 60001 * rate`; otherwise any clients that fill a shard give it away
  (`RateLimit.EvictionNoticed`). Under the same condition, and no other, a client is admitted
  at most the burst and what the time brings (`RateLimit.PlainBoundIff`), and is refused exactly when
  that would be exceeded (`RateLimit.GrantedIff`).
* `Staleness.NoLimitNoBound`: with no limit on the age of cached entries an answer can be of
  any age; with one, `Staleness.BoundedStaleness` holds.
* `Metrics.ExactIffOrdered`: the ring shows exact counts all along exactly when the clock never
  goes back; `Metrics.ClockBackLoses` is a run in which it does.

## Model

| member | source | states |
|---|---|---|
| LogLine.Esc | internal/store/store.go:229-255 | The escaping loop appends to the buffer the escaped form of the URL, byte by byte |
| LogLine.Unescape | internal/store/store.go:400-434 | The unescaping loop computes the specification `Unescaped`, on any bytes, malformed escapes included |
| LogLine.UnescapeEscaped | internal/store/store.go:229-434 | Unescaping what was escaped gives back the URL, whatever bytes it holds |
| LogLine.ParseOp | internal/store/store.go:309-398 | The parsing loop computes the specification `Parse` on any bytes, with the newline behind the line in its buffer: a parsed line, a refused one, or the index fault of an empty key |
| LineRoundTrip.LineParse | internal/store/store.go:309-398 | A line made of fields, in any order and with repeats, parses to the fold of those fields, the last one winning |
| LineRoundTrip.PrintedFields | internal/store/store.go:257-298 | What the three printers write is such a line, so the parser's field view applies to it |
| LineRoundTrip.RoundTrip | internal/store/store.go:257-398 | Log-line round trip: for every URL, every int64 field and every code the HTTP layer accepts, a printed row, hit or tombstone parses to exactly what was printed |
| LineRoundTrip.AnyFieldOrder | internal/store/store.go:309-398 | Any permutation of a line's fields parses to the same operation |
| Formats.RowBytes | internal/store/store.go:257-277 | The bytes of a row line, for any fields and any URL without quotes, backslashes and control bytes |
| Formats.HitBytes | internal/store/store.go:278-296 | The bytes of a hit line and of a tombstone |
| LogFile.ReplayFile | internal/aof/aof.go:111-126 | The callback gets the non-empty complete lines of the file, in order, and not the torn rest |
| LogFile.Aof.Push | internal/aof/aof.go:40-46 | Queues a line and its newline behind what was queued; the file is untouched |
| LogFile.Aof.Flush | internal/aof/aof.go:55-69 | What was queued is appended to the file, and the queue is empty |
| LogFile.Aof.Truncate | internal/aof/aof.go:90-99 | The file and the queue are empty |
| LogFile.TailReader.ReadNew | internal/aof/aof.go:142-175 | One read delivers the lines completed since the last one and keeps the rest; a shrunk file is read from its start |
| LogFile.TailChunking | internal/aof/aof.go:142-175 | Tail chunking: however an append-only file grows between reads, the lines delivered are those of a replay of the final file, each once and in order, and the leftover is what follows the last newline |
| LogFile.PrefixLines | internal/aof/aof.go:111-126 | Any byte prefix of printed lines splits into exactly the lines whose newline it contains |
| LogFile.SplitPrint | internal/aof/aof.go:111-126 | A printed log with a torn line behind it splits into its lines and that torn line |
| OpLog.LineClean | internal/store/store.go:257-298 | No printed line is empty or holds a raw newline |
| OpLog.WholeLog | internal/aof/aof.go:111-126 | A printed log, torn line or not, replays as the operations printed |
| OpLog.CrashPrefix | internal/aof/aof.go:111-126 | Crash-prefix consistency: any byte prefix of a printed log replays as its first k operations, k being the number of newlines in the prefix |
| OpLog.TailedPrefix | internal/aof/aof.go:142-175 | A reader that tails a log being written, cut anywhere, has delivered its first k operations and no other |
| OpLog.TailedSlice | internal/aof/aof.go:142-175 | What one read delivers is exactly the operations logged between two looks at the file |
| Table.ReplayRows | internal/store/store.go:439-497 | After a replay a row is the last one logged unless a tombstone follows, or the one before the replay if the log is silent; evictions of stray hits never matter |
| Table.RecoveredRows | internal/store/store.go:507-516 | The table a fresh process builds holds for every code the row its log leaves |
| Table.RowAtAppend | internal/store/store.go:439-497 | Of two logs the later one decides about every code it mentions, and about no other |
| Table.ReplayOwn | internal/store/store.go:439-497 | Where no row of a code comes after hits of it that had no row (`Solid`), its own-hit counter after a replay is the sum the log records since the last row line, whatever was evicted |
| Table.ReplayOwnInAnyOrder | internal/store/store.go:439-497 | In any log, as long as the hits of a code are not evicted, its own-hit counter after a replay is that sum and the hits that waited for the row |
| Instance.BulkCreation | internal/store/store.go:627-667 | Under distinct codes each URL gets its own row and every other row stays |
| Instance.BulkLogged | internal/store/store.go:627-667 | One row line for every URL is queued, in their order, and nothing else changes |
| Recovery.StepKeeps | internal/store/store.go:586-896 | Every operation, compaction and crash keeps the table equal to what snapshot, log file and queue say |
| Recovery.RecoveryRefinement | internal/store/store.go:507-516 | Recovery refinement: after any run, crashes and compactions included, replaying snapshot, file and queued lines rebuilds exactly the rows in memory |
| OwnHits.UpdateRecovered | internal/store/store.go:723-753 | After an update, what a replay of snapshot, log and queue counts and the pending delta make up the counter in memory if and only if all hits were still pending |
| OwnHits.UpdateForgets | internal/store/store.go:723-753 | A run in which a recovery after an update counts none of a link's hits |
| OwnHits.CreatedRecovered | internal/store/store.go:439-497 | After a code is made (again), what a replay counts and the pending delta make up the counter if and only if the hits logged without a row and those pending add up to nothing |
| OwnHits.CreationRemembers | internal/store/store.go:439-497 | A run in which a link removed with a hit pending is made again and counted wrong by a recovery |
| OwnHits.StepConserves | internal/store/store.go:439-497 | Every careful call keeps every own counter equal to the logged sum and the pending delta |
| OwnHits.OwnHitsRecovered | internal/store/store.go:671-702 | Own-hit conservation: after any careful run the counter in memory is the one recovery would rebuild and the pending delta |
| OwnHits.SnapThenLog | internal/store/store.go:869-896 | Replaying the old log over a snapshot taken after it changes no row |
| OwnHits.CompactCrashRows | internal/store/store.go:869-896 | Compact crash safety: stopped before the rename, between rename and truncate, or after the truncate, a compaction leaves a disk that recovers the rows in memory |
| OwnHits.CompactCrashHits | internal/store/store.go:869-896 | Stopped between rename and truncate, a code's own hits come back right if and only if the old log settles its row or its own deltas of it add up to nothing |
| OwnHits.CompactCrashDoubles | internal/store/store.go:869-896 | A concrete run in which that stop counts a hit twice |
| Cluster.OwnerIsHome | internal/store/store.go:723-775 | An instance holds a row as its own exactly when it is the home of the code |
| Cluster.StepConverges | internal/store/store.go:439-571 | Every step of every instance, a crash with its restart included, keeps each row equal to what the seen part of its owner's log leaves |
| Cluster.RowConvergence | internal/store/store.go:523-571 | Row convergence: in every run an instance's row of a code is what the prefix of the owner's log it has consumed leaves, so it only shows states really logged |
| Cluster.RowAgreement | internal/store/store.go:523-537 | An instance that has read all its owner logged agrees with it |
| Cluster.RemoteMutation | internal/store/store.go:723-775 | Away from its home a code is refused as remote, or as missing, and nothing changes |
| Truncation.RowsAcross | internal/aof/aof.go:139-175 | However often the owner compacts, a reader that reads each life of the file to its end, and looks at the next before that has outgrown it, has the rows of all that was logged |
| Truncation.ReadEnough | internal/aof/aof.go:139-175 | When the truncation is found, the reader ends up with the owner's rows, whatever is logged next, if and only if what it had not read changes no row |
| Truncation.LookInTime | internal/aof/aof.go:139-175 | A reader that had read a whole log with a row in it ends up with the owner's rows if and only if its first look is sure to come before the file is as long again |
| Cluster.BatchTail | internal/store/store.go:523-537 | Reading a stretch of a sibling's log in one call is reading its lines in turn, so the line-by-line runs cover the calls |
| HitRestarts.ReplayHits | internal/store/store.go:507-516 | A replay of the own log counts all deltas it records, less those it evicts |
| HitRestarts.StepCountsAll | internal/store/store.go:439-571 | Every step, a crash with its restart included, keeps each counter equal to the deltas seen and pending less those evicted, and each log equal to what its instance counted |
| HitConvergence.HitsSeen | internal/store/store.go:439-497 | Hit convergence at any time, crashes included: a counter, or the stray hits before the row arrives, is the instance's own resolves (those a crash left no record of aside) and the deltas in what it has read of its siblings, less what it evicted |
| HitConvergence.HitConvergence | internal/store/store.go:671-701 | Once all have flushed and polled, an instance reports the total number of counted resolves if and only if the hits of that code it evicted add up to nothing |
| HitLoss.HitsDiverge | internal/store/store.go:456-480 | A run of three instances, of creations, resolves, flushes and polls alone, with just as many links as a stray table holds, all caught up, in which one reports the total of a link and another does not |
| HitLoss.AgreeIff | internal/store/store.go:456-480 | All instances report the same counters, in all runs with at most m links that have come to rest, crashes included, if and only if m is below the capacity of a stray table |
| HitRoom.FewLinksRoomy | internal/store/store.go:456-480 | With fewer links than a stray table holds no table ever overflows, in a run or in a replay |
| HitRoom.FewLinksAgree | internal/store/store.go:849-866 | Then all instances end up with the total number of counted resolves |
| HitConvergence.HitAgreement | internal/store/store.go:849-866 | With stray tables under their cap all instances report that total |
| HitConvergence.ReportedTotal | internal/store/store.go:849-866 | A code that is there at its home is then there everywhere, with that total in its row |
| HitVisits.VisitsReported | internal/store/store.go:671-702 | In a run without crashes, an instance at rest reports the number of visits that were answered anywhere, the row being there and its time not up, less what it evicted; where nothing is evicted, exactly that number |
| Codes.BuildAlphaIdx | internal/store/store.go:205-214 | The table built at start-up gives every letter of the alphabet its index and any other byte -1 |
| Codes.RandSuffix | internal/store/store.go:575-583 | Seven letters, the k-th chosen by the k-th random byte |
| Codes.GeneratedOK | internal/app/app.go:85-96 | Every generated code is one the HTTP layer accepts |
| Codes.OwnerLetter | internal/store/store.go:554-571 | The first letter of a generated code gives back its instance, and instances never generate the same code |
| Store.Store.Open | internal/store/store.go:507-511 | Opening a snapshot and a log whose last line may be torn gives the replay of all whole lines |
| Store.Store.LoadSiblings | internal/store/store.go:512-516 | The snapshots of the siblings whose logs are there are replayed on top, in order, and each gets a reader at the start of its log |
| Store.Store.ApplyOp | internal/store/store.go:439-497 | Applying one parsed line in place is one step of the fold `Apply`, on rows, counters and stray hits alike |
| Store.Store.Shorten | internal/store/store.go:586-624 | A taken alias yields "" and changes nothing; otherwise a code that was free gets the URL, with no expiry or the one its time to live comes to, every other row stays, one line is queued, and a full queue is written |
| Store.Store.ShortenMany | internal/store/store.go:627-667 | One code for every URL, pairwise distinct, fresh, drawn for it, with the instance's letter; each holds its URL and the expiry the time to live comes to, and every other row stays |
| Store.Store.Update | internal/store/store.go:723-753 | Accepted if and only if the row is there as an own one: then it has the new URL, its old creation time, and its old expiry or the one its new time to live comes to; every other row stays; else the answer is missing or remote and nothing changes |
| Store.Store.Remove | internal/store/store.go:755-775 | Accepted if and only if the row is there as an own one: then it is gone, a tombstone is queued and every other row stays; else the answer is missing or remote and nothing changes |
| Store.Store.Flush | internal/store/store.go:849-866 | Every pending delta becomes one line, in some order, and the queue is written |
| Store.Store.Compact | internal/store/store.go:869-896 | The state after a compaction, one row line in the snapshot for each own row with its own hits, an empty log, and the bytes of snapshot and log after each of the three steps on the disk |
| Store.Store.TailOne | internal/store/store.go:523-537 | Reads exactly what a sibling logged since the last look, and applies it |
| Store.Store.TailOwner | internal/store/store.go:554-571 | Of a code generated at another instance that has a log, the log of that instance is read to its end, and no other log |
| Store.Store.PollTails | internal/store/store.go:523-537 | Every sibling's log is read to its end, each once, and all its news applied |
| Store.Store.LazyPoll | internal/store/store.go:541-551 | The same, unless a poll was done less than 200 ms ago, when nothing happens |
| Store.Store.Resolve | internal/store/store.go:671-702 | Answers with a URL if and only if there is a row, once the news is applied, whose expiry is none or not come; an unknown code reads its owner's log to the end and, if it still is unknown and a poll is due, every log; a known one reads none; the answer is counted |
| Answers.AnswersByLog | internal/store/store.go:671-702 | In every run of one instance, crashes and compactions included, a resolve answers with a URL if and only if snapshot, log and queue leave a row with that URL whose expiry is none or later |
| Answers.AnswersByOwner | internal/store/store.go:523-702 | In every run of every number of instances, the same of the part of the owner's log that the instance has seen |
| Answers.ResolveSibling | internal/store/store.go:554-702 | Of a code generated at a sibling and not yet known, a resolve answers with the row the sibling's whole log leaves, whenever the last poll was |
| Polls.JoinedRead | internal/store/store.go:671-692 | What was read of the owner's log first and of all logs next is the news each had at the start, each once |
| Reboot.AfterTornWrite | internal/store/store.go:109-187 | A process that dies while writing its queue leaves bytes from which a new one recovers the rows of the lines that made it, and if all did, the rows the dying one had in memory |
| Reboot.AfterCompactCrash | internal/store/store.go:869-896 | The bytes a compaction leaves after any of its steps recover the rows in memory |
| Lifetime.Serve | internal/store/store.go:586-896 | Any request to a store without siblings keeps its table what snapshot, log and queue say, and keeps every row that it does not update or remove |
| Lifetime.LinkLives | internal/store/store.go:586-702 | After any requests that neither update nor remove it, a link answers with its URL before its time is up, or always if it has none, and with nothing from then on; a process that reopens the store answers alike |
| Lifetime.BulkLives | internal/store/store.go:627-702 | So does every link made in bulk |
| Lifetime.UpdateHolds | internal/store/store.go:671-753 | An update is accepted if and only if there is an own row; then the link answers with the new URL, until its new time, or its old one if none was given, now and when reopened |
| Lifetime.RemoveHolds | internal/store/store.go:671-775 | A removal is accepted if and only if there is an own row; then the link answers with nothing, now and when reopened, until one is made under its code |
| Lifetime.Reopen | internal/store/store.go:507-516 | A process that opens what another wrote finds every row the other had |
| Lifetime.ServeAndRestart | internal/store/store.go:507-511 | After any requests, the bytes written and queued, once in the file, are enough for a new process to find every row there was |
| RowValue.ValueRoundTrip | internal/store/kvstore.go:248-273 | A stored value decodes to the expiry, creation time and URL stored, bars in the URL included |
| RowValue.UntaggedRoundTrip | internal/store/kvstore.go:251-273 | So do values of the layout without a version tag |
| RowValue.OldestLayout | internal/store/kvstore.go:244-273 | Values of the oldest layout are read back if and only if the URL has no bar |
| RowValue.PlacesApart | internal/store/kvstore.go:195-242 | In both layouts no two codes share a place, and no row lies where a counter does |
| Formats.ValueBytes | internal/store/kvstore.go:248-250 | The bytes of a stored value |
| Formats.PlaceBytes | internal/store/kvstore.go:192-242 | The keys of a row and its counter, and the bucket of the code "a" by its FNV-1a hash |
| Cache.CacheShard.Get | internal/store/kvstore.go:55-72 | An entry is served if and only if it is no older than the limit, if there is one, and its expiry is none or not come; one that is too old is dropped |
| Cache.CacheShard.Put | internal/store/kvstore.go:74-93 | A new entry evicts, in queue order, up to the first mapped code and only if the shard is full; no other entry changes, and the bound and the queue invariant are kept |
| Cache.CacheShard.Evict | internal/store/kvstore.go:81-85 | The eviction loop ends with room, stale and duplicate queue entries notwithstanding |
| Cache.KvCache.constructor | internal/store/kvstore.go:44-53 | 256 empty shards share the capacity, at least 16 entries each |
| Cache.KvCache.Put | internal/store/kvstore.go:74-93 | The entry is there, and any other is as before or gone |
| KvRows.Answer | internal/store/kvstore.go:325-345 | The cached entry answers if and only if it is no older than the limit and has not expired; else the server is read, whose row answers unless it has expired, and the cache keeps what it said |
| KvRows.AnswerCoherent | internal/store/kvstore.go:325-345 | Where a cache agrees with the server or has expired, the answer is that of a read without a cache, and the cache still agrees |
| KvRows.DeadUnseen | internal/store/kvstore.go:202-231 | Dropping rows of expired links changes no answer |
| KvRows.IncrEffect | internal/store/kv.go:240-253 | An increment moves one counter and no row, unless 64 bits do not hold the sum |
| BulkRows.MadeByOverlay | internal/store/kvstore.go:382-425 | Every code given out is new and holds the last URL it was given to; every other row is as before |
| BulkRows.RetryIsFree | internal/store/kvstore.go:412-425 | The serial retry of a URL finds a code that is free |
| KvStore.KvStore.Resolve | internal/store/kvstore.go:325-345 | Cache transparency: the answer is the URL of the row on the server if its expiry is none or not come, and nothing otherwise, whatever is cached; the server is read only if the cache may not answer; an answer counts one hit |
| KvStore.KvStore.Shorten | internal/store/kvstore.go:348-378 | A taken alias yields ""; otherwise the row is stored under a free code with the expiry its time to live comes to, and no other row changes |
| KvStore.KvStore.ShortenMany | internal/store/kvstore.go:382-425 | Every URL gets a new code of its own that leads to it, on the serial path after a transport failure too; every other row stays, links that failure left among them |
| KvStore.KvStore.Update | internal/store/kvstore.go:428-461 | A row that is there gets the new URL, keeps its creation time, and keeps its expiry or gets the one its time to live comes to; else the code is reported missing; no other row changes |
| KvStore.KvStore.Remove | internal/store/kvstore.go:464-481 | Row and counter go, or the code is reported missing; pending hits are what is left |
| KvStore.KvStore.FlushHits | internal/store/kvstore.go:275-300 | Every pending delta is added to its counter in either layout, unless 64 bits do not hold the sum: no hit count and no row changes |
| KvStore.KvStore.Stats | internal/store/kvstore.go:588-615 | The row, and as its hits the stored counter and the pending delta: the number of counted resolves, as long as 64 bits hold it |
| KvStore.KvStore.SweepExpired | internal/store/kvstore.go:202-231 | Of the rows exactly those go that have an expiry and it has come, and no answer changes |
| KvStore.KvStore.ServerExpiry | internal/store/kv.go:218-231 | Only rows go that have an expiry and it has come, and no answer changes |
| KvLifetime.LinkLives | internal/store/kvstore.go:325-378 | After any calls, by timers and server too, that neither update nor remove it, nor make it again after its time, a link answers with its URL before its time is up, or always if it has none, and with nothing from then on |
| KvLifetime.BulkLives | internal/store/kvstore.go:325-425 | So does every link made in bulk, after a transport failure too |
| KvLifetime.UpdateHolds | internal/store/kvstore.go:325-461 | An update is accepted if and only if there is a row; then the new URL is answered until the new time, or the old one if none was given |
| KvLifetime.RemoveHolds | internal/store/kvstore.go:325-481 | After a removal the code answers with nothing until a link is made under it |
| KvLifetime.HitsGrow | internal/store/kvstore.go:325-345 | Over any calls that do not remove the link, the hits reported grow by the visits that were answered, as long as 64 bits hold them |
| PebbleStore.MergeAdds | internal/store/pebblestore.go:34-60 | The merge operator adds deltas modulo 2^64, of either sign |
| PebbleStore.PebbleStore.Resolve | internal/store/pebblestore.go:236-256 | Cache transparency over the embedded database: the URL of the row if its expiry is none or not come, else nothing; an answer counts one hit |
| PebbleStore.PebbleStore.Shorten | internal/store/pebblestore.go:260-289 | A taken alias yields ""; otherwise the row is stored and cached under a free code with the expiry its time to live comes to, and no other row changes |
| PebbleStore.PebbleStore.ShortenMany | internal/store/pebblestore.go:291-325 | All codes are new and lead to the last URL they were given to; two URLs share a code if and only if the batch was committed and their bulk draws were free and the same |
| PebbleStore.PebbleStore.Update | internal/store/pebblestore.go:327-349 | A row that is there gets the new URL, keeps its creation time, and keeps its expiry or gets the one its time to live comes to; else the code is reported missing; no other row changes |
| PebbleStore.PebbleStore.Remove | internal/store/pebblestore.go:351-361 | Row and counter go, or the code is reported missing |
| PebbleStore.PebbleStore.FlushHits | internal/store/pebblestore.go:158-180 | Every pending delta becomes a merge; counter and delta still add up to the hits counted |
| PebbleStore.PebbleStore.HitsReported | internal/store/pebblestore.go:220-232 | The hits reported are those counted if and only if a counter is stored or there are none |
| PebbleStore.PebbleStore.Stats | internal/store/pebblestore.go:405-419 | The row of a link that has not expired, with the hits reported |
| PebbleStore.PebbleStore.SweepExpired | internal/store/pebblestore.go:183-208 | Of the rows exactly those go that have an expiry and it has come, and no answer changes |
| PebbleLifetime.LinkLives | internal/store/pebblestore.go:236-289 | The same of the embedded database: a link answers until its time is up and not from then on |
| PebbleLifetime.BulkLives | internal/store/pebblestore.go:236-325 | So does every link made in bulk, committed or not, unless a later URL of the batch got its code |
| PebbleLifetime.UpdateHolds | internal/store/pebblestore.go:236-349 | An accepted update holds until the new time, or the old one if none was given |
| PebbleLifetime.RemoveHolds | internal/store/pebblestore.go:236-361 | After a removal the code answers with nothing until a link is made under it |
| PebbleLifetime.HitsGrow | internal/store/pebblestore.go:220-256 | The hits counted grow by the visits that were answered, and are reported if and only if a counter is stored or there are none |
| Staleness.RunFetched | internal/store/kvstore.go:55-93 | In every run of several processes each cached entry is a row the server held at the time the entry bears |
| Staleness.BoundedStaleness | internal/store/kvstore.go:325-345 | Bounded staleness: in every run, a URL any process answers with was stored for the code at some moment of the last TTL milliseconds, with an expiry that has not come |
| Staleness.NoLimitNoBound | internal/store/kvstore.go:62-68 | With any TTL of 0 or below, for any age there is a run that answers with a link removed that long ago |
| RespCodec.AppendArg | internal/store/kv.go:90-96 | Appends the argument as a bulk string |
| RespCodec.PipeBytes | internal/store/kv.go:114-122 | What is written is the commands, each an array of bulk strings, one after the other |
| RespCodec.Reader.ReadLine | internal/store/kv.go:144-153 | A line up to its CRLF, the end of the stream, or a malformed line |
| RespCodec.Reader.ReadResp | internal/store/kv.go:155-204 | The recursive reader computes `Decode` on any bytes and stops where that says, the panic of a length `make` refuses included |
| RespCodec.Reader.ReadMany | internal/store/kv.go:131-141 | The loop of an array reply, or of a pipe's replies, fills its array with the next n replies |
| RespCodec.WireReads | internal/store/kv.go:155-204 | Every reply of the protocol, however nested, is read back from wherever it stands in the stream, and its last byte is the last consumed |
| RespCodec.WirePrefixFree | internal/store/kv.go:155-204 | No two replies look alike, whatever follows them |
| RespCodec.PipeRoundTrip | internal/store/kv.go:109-142 | Commands written in one go are read back in order, whatever bytes their arguments hold, and exactly their bytes are consumed |
| Formats.CommandBytes | internal/store/kv.go:90-122 | The bytes of a GET of any key |
| RespCodec.Framing | internal/store/kv.go:155-204 | Of a stream cut short a reply is read if and only if all of it is there; else the reader is at the end of the stream |
| RespCodec.NullIs | internal/store/kv.go:33-34 | A reply is a null if and only if its length is below zero; empty strings and arrays are not |
| RateLimit.Limiter.constructor | internal/ratelimit/ratelimit.go:49-63 | 64 empty shards; the burst configured, or else the rate, but at least 1 |
| RateLimit.Limiter.Evict | internal/ratelimit/ratelimit.go:73-79 | Exactly the buckets idle for more than a minute go |
| RateLimit.Limiter.Allow | internal/ratelimit/ratelimit.go:65-98 | The decision and the buckets of the specification, of which `RefusedFor` and `WindowBound` say what they come to; without a rate everything is allowed |
| RateLimit.RunSimulates | internal/ratelimit/ratelimit.go:67-98 | Where an idle minute fills a bucket, the sharded limiter simulates one that keeps every bucket |
| RateLimit.EvictionTransparent | internal/ratelimit/ratelimit.go:67-98 | Every call of every run is decided as by a limiter that never evicts, if and only if an idle minute fills a bucket |
| RateLimit.EvictionNoticed | internal/ratelimit/ratelimit.go:67-98 | Where an idle minute does not fill a bucket, any clients that fill a shard, whatever they ask for, make a run in which one gets more than it would without eviction |
| RateLimit.WindowBound | internal/ratelimit/ratelimit.go:67-98 | In any window of T ms a client is admitted at most burst + rate * T / 1000; where an idle minute does not fill a bucket, at most burst - 60.001 * rate more for every 60001 ms |
| RateLimit.BoundAttained | internal/ratelimit/ratelimit.go:67-98 | That bound is attained: two bursts in 60001 ms |
| RateLimit.PlainBoundIff | internal/ratelimit/ratelimit.go:67-98 | The bound burst + rate * T / 1000 holds of all windows of all runs if and only if an idle minute fills a bucket |
| RateLimit.RefusedFor | internal/ratelimit/ratelimit.go:67-98 | A client that asks for no more than the burst is refused only if, since some earlier request of its own, it was admitted so much that this request would exceed burst + rate * T / 1000 |
| RateLimit.GrantedIff | internal/ratelimit/ratelimit.go:67-98 | Where an idle minute fills a bucket, a request is granted if and only if it costs no more than the burst and, since no earlier request of the client, would exceed that bound |
| Metrics.RingRefines | internal/metrics/metrics.go:66-93 | After any requests, whatever the gaps, each of the 31 entries of a snapshot is the exact number of requests in its second |
| Metrics.ExactIffOrdered | internal/metrics/metrics.go:66-93 | All entries of all snapshots along a run are exact if and only if the clock never goes back |
| Metrics.ClockBackLoses | internal/metrics/metrics.go:66-80 | A run with a clock that goes back shows one of two requests |
| Metrics.Counters.Tick | internal/metrics/metrics.go:66-80 | One request changes the ring as the specification says, clearing the seconds in between |
| Metrics.Counters.Window | internal/metrics/metrics.go:84-93 | The 31 entries, or the panic of a second before 1970 on the ring |
| Metrics.Counters.Snapshot | internal/metrics/metrics.go:84-115 | The whole text: the rate rounded to tenths, the total, the uptime and the window |
| Metrics.RateExact | internal/metrics/metrics.go:98-102 | The rounding to tenths changes nothing: five whole numbers make an even number of tenths |
| Metrics.RateCounts | internal/metrics/metrics.go:94-98 | The rate is made of exactly the requests of the five whole seconds before |
| Readout.ReadBack | internal/metrics/metrics.go:84-115 | Read back from the text after requests h: behind "total" stands |h|, behind "uptime_s" the whole seconds since the start, behind "req_s" a fifth of the requests of the last five whole seconds, and between the commas of the list the 31 counts |

## Left out

- HTTP adapters, routing, URL checks, the admin interface, the command line: adapters over libraries.
- Sockets, the connection pool, `SCAN` and `HSCAN` loops, Pebble's internals: the server and the database are maps with atomic operations, and errors are modelled only where `ShortenMany` answers them.
- Interleavings inside one operation: the update of the table and the push to the log are not one critical section in the source, and `Resolve` takes no gate; every operation is one atomic step here, and reads the clock once.
- The 256 map shards of the log store, and those of the dirty maps, are one map each; the cache and the limiter keep their shards.
- Memory mode (`:memory:`), `HITS=0` and `Seed` are configurations of what is modelled.
- `List`, its sorting and paging, and the log store's `Stats` and `Healthy`: they only read.
- I/O errors, and appending after a torn line: a restart in `Cluster` and `Recovery` starts from whole lines, and `Store.Store.Open` yields a store that can go on only if nothing is torn.
- Siblings do not compact in the runs of `Cluster`; since the rows of a code come from its owner's log alone, `Truncation` treats one owner and one reader.
- Updates and removals in `HitConvergence`: exact totals across an update do not hold (`OwnHits.UpdateRecovered`).
- That no alias is used at two instances is assumed through `home`; the source does not enforce it.
- `ClaimInstance`: instance ids are taken to be distinct.
- Callbacks of the file readers are modelled by the list of lines they get.
- RespCodec.Reader.ReadResp: running out of memory below the largest block `make` can be asked for is not modelled; that block is the one of 64-bit platforms.
- RespCodec: what a failed read leaves in the stream is not stated, since the connection is dropped.
- Metrics: the rate is computed over exact numbers; above 2^50 requests in five seconds a float would round.
- RateLimit: tokens are exact numbers, so rounding of floats is not modelled; negative costs, which no caller sends, are excluded from the theorems but not from `Allow`.
- Prometheus counters and the other operation counters: plain additions.
