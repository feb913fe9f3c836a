# Verified models of StremThru

StremThru is a Go service that sits between media players, stores, indexers and Usenet providers.
This project models the parts of it that carry state through loops, caches and concurrent
processes, and proves what they are there for. `dafny verify dfyconfig.toml` checks everything.

| files | component |
|---|---|
| `lz_format.dfy`, `lz_string.dfy`, `lz_decoder.dfy`, `lz_copies.dfy` | the LZ-string decoder (`internal/lzstring`) |
| `job_lease.dfy`, `job_lease_assumptions.dfy`, `job_history.dfy`, `job_trigger.dfy`, `advisory_lock.dfy` | the exclusive job scheduler, its triggers and its Postgres lock (`internal/job`, `internal/job_log`, `internal/db`) |
| `magnet_cache.dfy`, `magnet_cache_store.dfy` | the magnet cache with its read cache and its write-suppressing cache (`internal/magnet_cache`) |
| `pool_reconnect.dfy`, `pool_states.dfy` | reconnection of the NNTP pool (`internal/nntp`) |
| `episode_map.dfy`, `episode_parts.dfy`, `episode_tiling.dfy`, `episode_groups.dfy`, `episode_sort.dfy`, `episode_series.dfy`, `episode_mappings.dfy`, `episode_items.dfy` | AniDB/TVDB episode mapping: construction from the anime list, parts, grouping, sorting (`internal/animelists`, `internal/anidb`) |
| `merge_override.dfy` | corrections to the anime list (`internal/animelists`) |
| `episode_codec.dfy`, `episode_scan.dfy`, `comma_list.dfy`, `newznab_query.dfy`, `newznab_fields.dfy` | three text codecs (`internal/anidb`, `internal/db`, `internal/newznab`) |
| `tunnel_map.dfy` | the memoising proxy lookup (`internal/config`) |
| `text.dfy`, `decimal.dfy`, `wrappers.dfy` | the parts of `strings` and `strconv` that the codecs share, and small datatypes |

How each component is modelled:

- **LZ-string.** The format is specified first, without the decoder: six bits per character, fields
  least significant bit first, tokens, the growing code width, and the text that tokens denote. A
  function decodes the flat bit stream; the class with the program's registers is proved equal to it.
  What tokens denote is defined a second time, without a dictionary: codes are stretches of the output,
  and references copy them character by character; both definitions agree.
  The repository has no encoder, so the theorems speak of every token stream, and every text has one.
  Code 3 as the very first code is accepted by the program, and yields U+FFFD.
- **Exclusive jobs.** A step system over any number of nodes, one table, one lock and one clock. Each
  database call is a step, the judgement between reading and writing another; crashes, failing calls
  (carried out or not), panics and heartbeat writes that land late are steps too, and so are listing
  the records, which condemns those that have expired, and deleting these later. Mutual exclusion
  rests on four assumptions about the environment, stated as predicates on every state of a run:
  - `Timely`: the record of a live run is younger than `refresh`, a node judges what it has read within
    `patience`, and together they stay within the timeout; a heartbeat write of a run that has ended
    lands within the lifetime of its record, three days or more, less `patience`.
  - `DistinctCreation`: no two records have the same `created_at`.
  - `NamesMoveOn`: a run is started under a name that is in the table only if the record of that name
    is the last one. This is not for granted: the program names a run after the local time of day, to
    the second, which recurs when clocks are put back and differs between time zones, and the upsert
    keeps the creation time of a name that recurs.
  - `DoomedNamesRest`: no run is started under the name of a record that has been found expired and is
    about to be deleted.

  For each of the four a run is given that lacks it alone and has two nodes in the executor. The model
  also takes for granted that the advisory lock is mutually exclusive, that reads see the last write,
  that whoever lists records judges them within `patience`, that nothing but a heartbeat is written on
  behalf of a node after it has crashed, and that the job is `RunExclusive`.
- **Magnet cache.** States of table and caches with a relation for every operation, arbitrary
  evictions and a clock; a class runs the program's loops and is proved to make those steps. A write
  may fail without a trace or after it has been carried out, as when only the count of its rows cannot
  be had; the caches stay right in the first case, and in the second under the condition given.
- **NNTP pool.** Interleaved steps, each one atomic read or write, of any number of acquirers,
  reconnect loops, callers of `Close` and others who set the state. The flag for the loop is cleared
  after the loop's last write of the state, so a pool can be left offline with nobody to reconnect
  it; the project proves in exactly which step that happens, that it does happen, and that it lasts.
- **Episode mapping.** The whole construction is a loop over a list that rewrites earlier entries. It
  is proved equal to a description item by item, from which the theorems about parts, about TVDB
  episodes and about groups follow. Integers wrap at 64 bits.
- **Codecs.** For every order in which Go may yield the entries of a map, and with the exact
  condition on the values that survive; and what comes of any other text.

## Model

| member | source | states |
|---|---|---|
| LZFormat.UnpackPack | internal/lzstring/lz.go:16-51 | Bits cut into sixes, mapped to the URI-safe alphabet and read back with the program's table and masks are the same bits |
| LZFormat.CodeWidthUnique | internal/lzstring/lz.go:53-60 | The code width of the format is the only one that is at least 3, holds the code equal to the dictionary size, and could not be one less |
| LZFormat.BaseValueIsPlace | internal/lzstring/lz.go:16-17 | The value of a character is its place among the upper-case letters, the lower-case letters, the digits and "+-$", and 0 for any other byte |
| LZFormat.CleanMeaning | internal/lzstring/lz.go:66-72 | Replacing surrogate literals one by one, before later references copy them, is the same as replacing them in the finished text |
| LZString.ParsePrinted | internal/lzstring/lz.go:62-83 | A token written in the current width is read back, if at least one bit follows |
| LZString.PrintParsed | internal/lzstring/lz.go:62-83 | Whatever is read as a token fits the width and is that token's bits |
| LZString.ParseCutOff | internal/lzstring/lz.go:34-51 | With no bit left after a token, or fewer bits than it has, the reader indexes beyond the input |
| LZString.DecodeStream | internal/lzstring/lz.go:91-118 | An input whose bits continue a well-formed stream, or break off inside it, decodes to the text of the stream or ends in the out-of-range outcome |
| LZString.DecodesExactlyStreams | internal/lzstring/lz.go:91-118 | An input decodes to a text if and only if its bits are those of a well-formed stream with that meaning and at least one bit more |
| LZString.RefusesExactlyUnknownCodes | internal/lzstring/lz.go:76-110 | The error is returned, beside a text, if and only if the bits are those of tokens with that meaning, then a code beyond the dictionary, then at least one bit more |
| LZString.DecodeUndoesPacking | internal/lzstring/lz.go:91-118 | Decoding undoes packing for every encoder and every padding; without padding the decoder panics |
| LZString.EveryTextHasStream | internal/lzstring/lz.go:10-14 | Every text is the meaning of some stream that an encoder can write |
| LZString.RoundTripIffNoSurrogates | internal/lzstring/lz.go:64-72 | The text an encoder was given comes back if and only if it has no UTF-16 surrogate |
| LZString.GrowKeepsExplained | internal/lzstring/lz.go:106-115 | Every round keeps each defined dictionary entry a non-empty stretch of the output, and a code equal to the dictionary size stands for the entry that the round then adds |
| LZString.FirstDictionaryExplained | internal/lzstring/lz.go:96-105 | The same holds after the first token |
| LZDecoder.AppendKeepsBalance | internal/lzstring/lz.go:53-60 | Appending keeps dictionary size plus countdown at the power of two of the width, and the width at that of the format, across every change of width |
| LZDecoder.AllowedCodesFit | internal/lzstring/lz.go:62-82 | Every code the format allows can be written in the current width |
| LZDecoder.FirstToken | internal/lzstring/lz.go:96-105 | The first token leaves the registers in balance and the dictionary explained |
| LZDecoder.Decoder.constructor | internal/lzstring/lz.go:96 | The registers start at bit 0 with the three reserved entries |
| LZDecoder.Decoder.NextBit | internal/lzstring/lz.go:37-49 | One turn of the loop uses the first of the remaining bits, and fails exactly when no other follows |
| LZDecoder.Decoder.ReadBits | internal/lzstring/lz.go:34-51 | The reader returns the little-endian value of the next bits of the flat stream and advances by as many |
| LZDecoder.Decoder.AppendValue | internal/lzstring/lz.go:53-60 | Appends the entry, counts down or widens, and keeps the balance |
| LZDecoder.Decoder.GetLiteral | internal/lzstring/lz.go:66-72 | A literal is read off the stream, cleaned of surrogates and entered in the dictionary |
| LZDecoder.Decoder.GetString | internal/lzstring/lz.go:62-83 | Returns what the next token of the flat stream resolves to, the end, or the error for an unknown code |
| LZDecoder.Decoder.NextEntry | internal/lzstring/lz.go:106-114 | One round of the main loop makes exactly the dictionary step of the format |
| LZDecoder.DecompressRound | internal/lzstring/lz.go:106-115 | One round ends with the outcome of the function on bits, or goes on with a text after which that outcome is still to come; it adds the stretch of the output that begins with the text before and is one character longer, and before it at most the one character it wrote |
| LZDecoder.DecompressFirst | internal/lzstring/lz.go:96-105 | The first token ends the text, or begins it and leaves the rest of it to come, with the registers in balance |
| LZDecoder.DecompressRest | internal/lzstring/lz.go:106-115 | The main loop computes the function on bits and ends; it reads fewer than a third as many codes as there are bits, plus one |
| LZDecoder.DecompressFromEncodedUriComponent | internal/lzstring/lz.go:91-118 | The whole decoder equals the function on the flat bit stream on every input, reports an empty input and only that as one, and its main loop reads at most twice as many codes as there are bytes |
| LZCopies.CopyingIsMeaning | internal/lzstring/lz.go:62-116 | Copying stretches of the output, one character at a time, gives the text of every stream: each code stands for the text before it and one character more, or for a literal |
| LZCopies.DecodesByCopying | internal/lzstring/lz.go:91-118 | The inputs that decode are those that begin with a stream and one bit more, and the text is what copying makes of the stream |
| LZCopies.RefusesByCopying | internal/lzstring/lz.go:76-110 | The text beside the error is what copying makes of the tokens before the unknown code |
| LZCopies.EncodedTextComesBack | internal/lzstring/lz.go:64-72 | The text that an encoder was given comes back with U+FFFD in the place of each surrogate |
| LZCopies.AbabDecodes | internal/lzstring/lz.go:91-118 | "IYI1Q" decodes to "abab", the second half by the entry that the first half has made |
| LZCopies.CatDecodes | internal/lzstring/lz.go:66-72 | "tTOQ" decodes to the 16-bit character U+732B |
| JobLease.SavedKeepsTable | internal/job_log/db.go:265-322 | The upsert takes no record its creation time, and a new record, or the last one refreshed, is then the last one |
| JobLease.LastIsLive | internal/job_log/db.go:127-143 | While a run is live, the last record by creation time is its own and says "started" |
| JobLease.ReadLastKeeps | internal/job_log/db.go:127-182 | Reading the last record keeps the invariant: if a run is live, it is its record that is read |
| JobLease.JudgementIsSafe | internal/job/scheduler.go:173-205 | Whoever judges while a run is live turns back, and nobody goes on to delete the record of a run that is live or has a heartbeat under way |
| JobLease.JudgeKeeps | internal/job/scheduler.go:173-205 | Judging what was read keeps the invariant |
| JobLease.DeleteKeeps | internal/job_log/db.go:154-157 | Deleting an expired record, or failing to, keeps the invariant |
| JobLease.MarkFailedKeeps | internal/job/scheduler.go:192-195 | Marking a timed-out run as failed, or failing to, keeps the invariant |
| JobLease.BecomesLive | internal/job/scheduler.go:207-217 | With the last record its own, a node's run becomes live, the only one |
| JobLease.StartKeeps | internal/job/scheduler.go:207-212 | Writing "started", under a new name or that of the last record, leaves the node with the last record, also if the write is reported as failed |
| JobLease.UnlockKeeps | internal/job/scheduler.go:214-217 | Giving back the lock before the run, or failing to, keeps the invariant |
| JobLease.LandKeeps | internal/job/scheduler.go:222-234 | A heartbeat write that lands late, even after its run has ended, keeps the invariant |
| JobLease.FinishKeeps | internal/job/scheduler.go:236-247 | Writing "done" or "failed" ends the run without touching another |
| JobLease.CrashKeeps | internal/job/scheduler.go:128-250 | A node may crash at any point, giving up the lock if it held it |
| JobLease.CondemnKeeps | internal/job_log/db.go:199-245 | Whoever lists the records, at whatever time, condemns no record of a run that is live or has a heartbeat under way |
| JobLease.PurgeKeeps | internal/job_log/db.go:250-260 | Deleting condemned records at any later time, or failing to, keeps the invariant |
| JobLease.StepKeepsInv | internal/job/scheduler.go:128-250 | Every step of every node, from a state that meets the assumptions, keeps the lease invariant |
| JobLease.RunKeepsInv | internal/job/scheduler.go:128-250 | The invariant holds in every state of every run that meets the assumptions |
| JobLease.AtMostOneExecutor | internal/job/scheduler.go:128-250 | In every interleaving of any number of nodes, under the four assumptions, no two are inside the executor at once, and the record of the one that is says "started" and is the last one |
| JobLease.LiveRunIsRespected | internal/job/scheduler.go:179-190 | Whoever judges the last record while another run is live turns back |
| JobHistory.JudgesWhatItRead | internal/job/scheduler.go:173-180 | In every run a judgement is about the record that was the last one when the same attempt read it, and about the call with which that attempt began |
| JobHistory.GoesOnIff | internal/job/scheduler.go:173-205 | In every run an attempt goes on if and only if the table was empty, or the last record has expired, or is failed, or is done and the attempt was triggered or the interval has passed since it was created, or is started and not refreshed for the heartbeat interval and its tolerance; otherwise it turns back |
| JobHistory.StartWasJudged | internal/job/scheduler.go:173-212 | A node that is about to start has gone on by its judgement in the same attempt |
| JobHistory.EntersAfterRelease | internal/job/scheduler.go:207-236 | A node enters the executor only by an answered release after an answered write under the name of its run |
| JobHistory.WritesAre | internal/job_log/db.go:265-334 | Starts and heartbeats write "started", a timed-out run becomes failed, a run that ends writes how; a write sets the update and expiry times and keeps the creation time, deletions delete, and no other step changes a record |
| JobHistory.OutcomeIsLogged | internal/job/scheduler.go:236-247 | A run that comes back without error leaves "done" and one with an error "failed", with the creation time that it had; one that panics writes nothing more |
| JobHistory.HeartbeatsAre | internal/job/scheduler.go:219-234 | A heartbeat is under way from when it is sent until it lands |
| JobLeaseAssumptions.ExclusionNeedsTimeliness | internal/job/scheduler.go:182-195 | For every setting there is a run that lacks nothing but timely heartbeats and has two nodes in the executor |
| JobLeaseAssumptions.ExclusionNeedsDistinctTimes | internal/job_log/db.go:127-133 | The same for a run that lacks nothing but distinct creation times |
| JobLeaseAssumptions.ExclusionNeedsMovingNames | internal/job/scheduler.go:207-212 | The same for a run that lacks nothing but names that move on: one of its runs has the name of an older one |
| JobLeaseAssumptions.ExclusionNeedsRestingNames | internal/job_log/db.go:225-260 | The same for a run that lacks nothing but rest for doomed names: it is started under one, and loses its record to the late deletion |
| JobTrigger.NoTriggerIsLost | internal/job/scheduler.go:73-126 | For every trigger that has returned, a token is waiting or an execution began after its payload was queued, also when sends were dropped |
| JobTrigger.TriggerIsServed | internal/job/scheduler.go:114-123 | After a payload was queued and its send was made or dropped, a token is waiting or an execution has begun since the queueing, in every state of every run |
| JobTrigger.ExecutionsWereTriggered | internal/job/scheduler.go:73-84 | There are no more executions than sends, with the token in the slot counted |
| AdvisoryLock.ReleasedTimesEnds | internal/db/advisory_lock.go:170-185 | Releasing as often as was acquired ends with nothing held, and committed if the commit succeeds |
| AdvisoryLock.CallsKeepSound | internal/db/advisory_lock.go:106-185 | Over every sequence of answered calls, with commits that may fail, the counter equals the server's holds and there is at most one commit, when the count is back at zero; a failed commit is made up for by the next release, and after the commit releasing changes nothing |
| AdvisoryLock.PostgresAdvisoryLock.constructor | internal/db/advisory_lock.go:191-205 | A new lock has an open transaction and holds nothing |
| AdvisoryLock.PostgresAdvisoryLock.Commit | internal/db/advisory_lock.go:106-116 | Commits once and nothing afterwards; a commit that fails keeps the transaction |
| AdvisoryLock.PostgresAdvisoryLock.Acquire | internal/db/advisory_lock.go:122-131 | Counts an answered acquisition, joins the error of a failed one, keeps the counters sound |
| AdvisoryLock.PostgresAdvisoryLock.TryAcquire | internal/db/advisory_lock.go:133-146 | Succeeds exactly when the server grants the lock, keeps the counters sound |
| AdvisoryLock.PostgresAdvisoryLock.Release | internal/db/advisory_lock.go:148-168 | Gives up one hold and commits with the last, or only commits when nothing is counted |
| AdvisoryLock.PostgresAdvisoryLock.ReleaseAll | internal/db/advisory_lock.go:170-185 | Without errors ends at zero, committed if the commit succeeds, and reports whether it got to zero |
| AdvisoryLock.ReleasesEnd | internal/db/advisory_lock.go:148-168 | After an acquisition, for all replies to the two releases, the hold remains only if neither was carried out; the transaction is closed exactly by an answered release with a commit that succeeds, and stays open for good after a first release that was done and reported as failed |
| AdvisoryLock.SchedulerUse | internal/job/scheduler.go:150-217 | The job runs only after an answered explicit release; what the two releases leave is as above; an attempt that fails or is not granted leaves its transaction open, and a hold if it was granted all the same |
| MagnetCache.CacheKeyInjective | internal/magnet_cache/db.go:184-186 | The key of both caches tells stores and hashes apart |
| MagnetCache.ForcedKeepsCoherent | internal/magnet_cache/db.go:203-212 | A write that is carried out leaves both caches in line with the table |
| MagnetCache.BulkTouchIsPlain | internal/magnet_cache/db.go:257-317 | A bulk touch has the effect of writing all its verdicts, although it leaves out those that are suppressed |
| MagnetCache.HalfWriteKeepsCoherentIff | internal/magnet_cache/db.go:203-210 | A touch that is carried out and reported as failed keeps the caches in line with the table if and only if what they hold for its key is right anyway |
| MagnetCache.HalfBatchKeepsCoherentIff | internal/magnet_cache/db.go:257-317 | Such a statement of a bulk touch, whatever its hashes, keeps them in line if and only if what they hold for each of its keys is right anyway |
| MagnetCache.NextKeepsCoherentIff | internal/magnet_cache/db.go:90-317 | Every operation, eviction and passing of time keeps the caches in line with the table if and only if its half-done writes, which in a bulk touch may be two, are harmless in that sense |
| MagnetCache.CoherentIffHarmless | internal/magnet_cache/db.go:52-317 | The caches are in line all along a run if and only if every half-done write in it is harmless |
| MagnetCache.HalfWriteDeceives | internal/magnet_cache/db.go:188-212 | There is a run with one such write after which a touch is suppressed that the table needed |
| MagnetCache.NextIsPlain | internal/magnet_cache/db.go:90-317 | Every operation changes the verdicts as an implementation without caches would |
| MagnetCache.CachesAreTransparent | internal/magnet_cache/db.go:52-317 | In every run whose half-done writes, if any, are harmless the caches agree with the table and the table with an implementation that always writes |
| MagnetCache.TouchConfirms | internal/magnet_cache/db.go:171-217 | After every touch without error, suppressed or not and whatever came before, the row is there and was modified at most 28 hours ago |
| MagnetCache.TouchSettles | internal/magnet_cache/db.go:171-217 | The row then has the verdict of the touch, if the half-done writes before it were harmless |
| MagnetCache.TouchConfirmsNoCloser | internal/magnet_cache/db.go:171-217 | There is a run that meets the 28 hours exactly |
| MagnetCacheStore.StatementThenCaches | internal/magnet_cache/db.go:285-317 | One statement for all rows followed by a loop over the caches equals row by row |
| MagnetCacheStore.Store.Touch | internal/magnet_cache/db.go:188-217 | Makes the touch step of the model: suppressed, written, failed, or written and reported as failed |
| MagnetCacheStore.Store.WriteBatch | internal/magnet_cache/db.go:287-317 | Writes a batch and remarks its keys, or leaves the caches alone after a failure |
| MagnetCacheStore.VerdictMap.Mark | internal/magnet_cache/db.go:244-252 | The caller's map gains every hash with files as cached, in whatever order they come, and keeps the others |
| MagnetCacheStore.Store.BulkTouch | internal/magnet_cache/db.go:230-318 | Makes the bulk step of the model, and leaves the caller's map, if there is one, with the hashes that have files |
| MagnetCacheStore.Store.ClassifyForBulk | internal/magnet_cache/db.go:257-283 | The two batches hold each hash that is not suppressed once, by verdict |
| MagnetCacheStore.Store.TakeCached | internal/magnet_cache/db.go:103-117 | The first loop answers, from the read cache, exactly what a query would for those hashes |
| MagnetCacheStore.Store.TakeHit | internal/magnet_cache/db.go:104-113 | A row in the read cache adds to the answer what a query for its hash would |
| MagnetCacheStore.Store.FetchMissed | internal/magnet_cache/db.go:147-168 | The second loop completes the answer and fills the read cache, in any order of rows, or breaks off after any number of them |
| MagnetCacheStore.Store.ScanRow | internal/magnet_cache/db.go:148-162 | One row enters the read cache, and the answer if it passes the filter |
| MagnetCacheStore.Store.GetByHashes | internal/magnet_cache/db.go:90-169 | The answer is what an uncached query returns, without repetition for distinct hashes: each requested hash with a row, with its known files, if it is not cached, or no stream is asked for, or a known file is for the stream or for all; it fails only with the database, and rows read before the failure are cached rightly |
| PoolReconnect.FlagKeeps | internal/nntp/pool.go:228-236 | Every step keeps the reconnect flag set exactly while one acquirer or one loop holds it |
| PoolReconnect.StepKeepsInv | internal/nntp/pool.go:173-385 | Every interleaved step keeps flag, closing and backoff invariants |
| PoolReconnect.RunKeepsInv | internal/nntp/pool.go:173-385 | They hold in every state of every run |
| PoolReconnect.OneLoopAtMost | internal/nntp/pool.go:228-276 | At most one reconnect loop is live, only while the flag is set, and the flag is never left behind |
| PoolReconnect.WaitIsCappedBackoff | internal/nntp/pool.go:233-271 | The wait before attempt k is the delay times two to the power k-1, capped at sixteen delays |
| PoolReconnect.CloseStopsReconnecting | internal/nntp/pool.go:246-385 | After closing, `doReconnect` is entered at most once more, and the channel is closed at most once |
| PoolReconnect.DeadStaysDead | internal/nntp/pool.go:173-276 | A pool that turns everybody away with nothing pending stays so until its state is set from outside |
| PoolReconnect.AbandonedExactlyByLeaving | internal/nntp/pool.go:205-236 | Such an offline pool comes about in exactly one step: a loop clears the flag while the pool is offline and no acquirer is about to schedule |
| PoolReconnect.PoolCanBeAbandoned | internal/nntp/pool.go:205-236 | There is a run to such a state with nobody having closed the pool |
| PoolStates.WhoWrites | internal/nntp/pool.go:173-226 | Only five kinds of steps write the state, and what they write |
| PoolStates.DialDecides | internal/nntp/pool.go:213-225 | In every run a dial that succeeds leaves the pool online and its loop done, and one that fails leaves it offline and its loop there, backing off |
| PoolStates.OnlineByDial | internal/nntp/pool.go:205-226 | The pool comes online only from outside or by a dial that has succeeded |
| PoolStates.LetThroughIff | internal/nntp/pool.go:295-310 | An acquirer is let through exactly when the pool is online or connecting |
| PoolStates.FailureLeadsTo | internal/nntp/pool.go:173-241 | Wrong credentials mark the pool and start nothing; any other failure of a pool that lets acquirers through marks it offline and starts a loop unless there is one |
| PoolStates.DialIsOrderly | internal/nntp/pool.go:205-268 | A loop dials only after it has found the pool offline, then neither disabled nor with failed credentials, and has marked it connecting |
| PoolStates.LeavesFor | internal/nntp/pool.go:246-268 | A loop leaves only because the channel is closed, or it has found the pool closed or not offline, or its dial has succeeded |
| PoolStates.FailedDialRetries | internal/nntp/pool.go:216-272 | After a failed dial, while nobody closes the pool or writes its state from outside, the loop enters `doReconnect` again in its fifth step, in every interleaving, with the pool offline until then |
| PoolStates.ClosingCounts | internal/nntp/pool.go:246-385 | Counted over the steps of a run: `doReconnect` is entered at most once after the pool is closed, and the channel is closed at most once |
| PoolStates.ClosesAfterLoops | internal/nntp/pool.go:376-385 | The pool of connections is closed only by a caller that has seen every loop gone |
| EpisodeParts.ReadItem | internal/animelists/dataset.go:143-173 | Items whose offset or season is no number are left out, the others are read |
| EpisodeParts.AddDefault | internal/animelists/dataset.go:156-213 | Appends the default map and, for a season with parts, makes it the next part |
| EpisodeParts.TrackPart | internal/animelists/dataset.go:186-212 | The two index maps find the last part of the season, and it alone is changed |
| EpisodeParts.BoundLastPart | internal/animelists/dataset.go:196-211 | The new part starts at 1, the part before it is bounded where it was open |
| EpisodeParts.SetBefore | internal/animelists/dataset.go:215-228 | The `before` text is scanned into the default map |
| EpisodeParts.FillFields | internal/animelists/dataset.go:246-299 | Fields are read up to the first that is no number, and those before it stay |
| EpisodeParts.WidenAbsolute | internal/animelists/dataset.go:331-336 | The map in absolute order is widened, wherever it is in the list |
| EpisodeParts.AddSeasonOne | internal/animelists/dataset.go:302-325 | A second season bounds the first one, or creates it |
| EpisodeParts.ApplyMapping | internal/animelists/dataset.go:230-336 | One mapping does to the flat list what it does to the item's own maps, and nothing to those before |
| EpisodeParts.ApplyMappings | internal/animelists/dataset.go:230-337 | The same for the whole mapping list |
| EpisodeParts.PrepareAniDBTVDBEpisodeMaps | internal/animelists/dataset.go:134-341 | The loop, which rewrites earlier entries through its index maps, yields the maps of the accepted items, one item after the other |
| EpisodeTiling.GroupsAreContributions | internal/animelists/dataset.go:134-341 | What an item contributes depends on the item, on whether its season had a part before, and on the offset of the next part of its season, and on nothing else |
| EpisodeTiling.DefaultIsLeft | internal/animelists/dataset.go:230-337 | A mapping list without the item's own season, without a second season beside a first, and without a readable mapping beside a season written as -1, leaves the default map alone |
| EpisodeTiling.PlainItem | internal/animelists/dataset.go:142-228 | An item without mapping list has its default map and no other, and leaves it alone if its season has parts |
| EpisodeTiling.PartEndsAtNext | internal/animelists/dataset.go:196-211 | A part whose mapping list sets no end, whatever its start and offset, ends with the TVDB episode that the offset of the next part names |
| EpisodeTiling.PartsTile | internal/animelists/dataset.go:186-212 | For consecutive parts, the TVDB end of one plus 1 is the TVDB start of the next, for all offsets, wrapping included, if the mapping lists set no end of the one and neither start nor offset of the other |
| EpisodeTiling.RangeIsLeft | internal/animelists/dataset.go:230-337 | A mapping list whose mappings for the item's own season bring episodes only, and whose others leave the default map alone, meets these conditions |
| EpisodeTiling.HarmlessPartsTile | internal/animelists/dataset.go:186-337 | Consecutive parts with such mapping lists, and so all without one, tile |
| EpisodeTiling.EveryEpisodeHasOnePart | internal/anidb/tvdb_episode_map.db.go:159-173 | With increasing offsets, in a season that is not in absolute order, every TVDB episode behind the first offset comes from one AniDB episode of one part of the season, and from no other |
| EpisodeTiling.AbsoluteReachesFarthest | internal/animelists/dataset.go:331-336 | For an item in absolute order whose mappings all have an end, the absolute map reaches exactly as far as the farthest readable mapping |
| EpisodeMappings.KeysAre | internal/animelists/dataset.go:230-337 | The keys of an item's maps are its own, those of its readable mappings, and that of a first season if there is a second one, with one map for each |
| EpisodeMappings.OneMapPerKey | internal/animelists/dataset.go:134-341 | An item has as many maps in the result as it has such keys |
| EpisodeMappings.MappedEpisodes | internal/animelists/dataset.go:230-337 | A readable mapping for a season that nothing else of its item is for is a map in the result: listed episodes go where the text lists them, others to the offset within the range that the texts name, open where a text is empty, and always in absolute order |
| EpisodeMappings.OwnSeasonIsBounded | internal/animelists/dataset.go:302-314 | The item's own first season, unless it has a range, gets start 1, the end before the second season's start, and the offset of the second season's start unless it has one |
| EpisodeMappings.MappedSeasonIsBounded | internal/animelists/dataset.go:302-314 | The same for a first season that an earlier mapping is for |
| EpisodeMappings.FirstSeasonIsMade | internal/animelists/dataset.go:314-324 | Without one, a second season brings along a first season that ends before it |
| EpisodeMappings.OwnSeasonTakes | internal/animelists/dataset.go:302-314 | A bounded own season takes exactly the episodes before the second season's start to TVDB |
| EpisodeMappings.MadeSeasonTakes | internal/animelists/dataset.go:314-324 | So does one that was brought along |
| EpisodeMappings.GroupsAreItemMaps | internal/animelists/dataset.go:134-341 | In the result only an item's first map differs from what its mapping list makes, and only if a part follows |
| EpisodeItems.ReadIff | internal/animelists/dataset.go:143-173 | An item is read exactly if its offset is empty or a number and its season "a" or a number; what offset, season and "before" map are then |
| EpisodeItems.AcceptedOf | internal/animelists/dataset.go:142-173 | The accepted items of two lists are those of one and then those of the other |
| EpisodeItems.FillStops | internal/animelists/dataset.go:246-299 | Fields up to the first that is no number are taken over, an empty one leaves what was there, later ones stay |
| EpisodeItems.PlainGroupIs | internal/animelists/dataset.go:156-213 | All fields of the map of an item without mapping list: absolute order and specials stand alone; a part begins at 1 with another part before or behind it, and ends where the next one begins |
| EpisodeItems.AbsoluteReaches | internal/animelists/dataset.go:331-336 | An item in absolute order reaches as far as the farthest mapping behind the last one without an end, and is open if there is none |
| EpisodeGroups.GroupingConserves | internal/anidb/tvdb_episode_map.db.go:466-488 | The groups joined are the input, and they are its longest runs of an AniDB id |
| EpisodeGroups.GroupsAreNumbered | internal/anidb/tvdb_episode_map.db.go:470-486 | A group's part is one more than the number of groups before it that begin with its season, or 0 |
| EpisodeGroups.PartsAreGapless | internal/anidb/tvdb_episode_map.db.go:470-486 | The parts of a season are 1, 2, 3, ... without gaps, in order, each once |
| EpisodeGroups.JoinedIff | internal/anidb/tvdb_episode_map.db.go:507-516 | Some part exceeds 1 if and only if two groups begin with maps of the same positive TVDB season, neither of which is for specials |
| EpisodeGroups.OneGroupPerIdIff | internal/anidb/tvdb_episode_map.db.go:466-488 | Every id has one group if and only if its maps stand together |
| EpisodeGroups.LookUpIsScan | internal/anidb/tvdb_episode_map.db.go:490-505 | For maps that stand together, the index finds what a linear scan finds, in order |
| EpisodeGroups.AniDBTVDBEpisodeMapsResult.constructor | internal/anidb/tvdb_episode_map.db.go:435-440 | Nothing is memoised at first |
| EpisodeGroups.AniDBTVDBEpisodeMapsResult.GroupByAniDBId | internal/anidb/tvdb_episode_map.db.go:456-495 | The memoised groups are those of the maps, whenever it is called |
| EpisodeGroups.AniDBTVDBEpisodeMapsResult.Group | internal/anidb/tvdb_episode_map.db.go:463-488 | The loop with its running index and its counters per season yields the groups |
| EpisodeGroups.AniDBTVDBEpisodeMapsResult.Index | internal/anidb/tvdb_episode_map.db.go:490-493 | The index holds the last group of every id |
| EpisodeGroups.AniDBTVDBEpisodeMapsResult.GetByAniDBId | internal/anidb/tvdb_episode_map.db.go:497-505 | Finds the last group of the id, if it has one, grouping first if need be |
| EpisodeGroups.AniDBTVDBEpisodeMapsResult.HasJoinedTVSeasons | internal/anidb/tvdb_episode_map.db.go:507-516 | Holds exactly when two groups begin with the same positive TVDB season in a regular AniDB season |
| EpisodeSort.SortingGroupsIff | internal/anidb/tvdb_episode_map.db.go:268-285 | Sorting puts the maps of every id together, for all maps over a set of ids, if and only if the ids stand for distinct numbers |
| EpisodeSort.SortedMeans | internal/anidb/tvdb_episode_map.db.go:268-285 | Sorted means by number, where other ids count as -1, then by TVDB season, AniDB season and start |
| EpisodeSort.PrintedIdsAreDistinct | internal/anidb/tvdb_episode_map.db.go:270 | Ids as numbers are printed do |
| EpisodeSort.InterleavesIff | internal/anidb/tvdb_episode_map.db.go:268-285 | Two ids have maps that sorting leaves interleaved if and only if they stand for one number |
| EpisodeSort.OtherIdsInterleave | internal/anidb/tvdb_episode_map.db.go:268-285 | Any two ids that are no numbers, or one number written in two ways, have such maps |
| EpisodeSeries.GroupIsOfItem | internal/animelists/dataset.go:156-337 | Whatever the mapping lists do, the maps an item contributes carry its ids |
| EpisodeSeries.ItemsAreGroups | internal/anidb/tvdb_episode_map.db.go:456-495 | For every list of items, grouping the constructed maps by AniDB id gives one group for each item that does not go on with the id before it, with its maps and those of the items that go on with its id |
| EpisodeSeries.JoinedIffTwoParts | internal/anidb/tvdb_episode_map.db.go:507-516 | For every list of items, with whatever mapping lists, seasons of the constructed maps are joined if and only if two accepted items, leaving out those that go on with the id before them, have one positive season |
| EpisodeSeries.FirstMapIs | internal/animelists/dataset.go:156-337 | Whatever the mapping lists do, the maps of an item begin with one for its own season |
| EpisodeSeries.AllAreHeads | internal/anidb/tvdb_episode_map.db.go:463-488 | If neighbouring items have different ids, every item is a group of its own |
| MergeOverride.MergedOneRefines | internal/animelists/dataset.go:82-97 | Merging one mapping overrides the table at its season, keeping the old episodes if it brings none |
| MergeOverride.SortingKeepsTable | internal/animelists/dataset.go:100-102 | Any sorted order of a list without repeated seasons has the same table |
| MergeOverride.MergeRefinesOverride | internal/animelists/dataset.go:77-103 | For lists without repeated seasons the result has none either, is the override of one table by the other, and is sorted if there was something to merge |
| MergeOverride.MergingIsIdempotent | internal/animelists/dataset.go:77-103 | Merging the same override again yields the same mappings |
| MergeOverride.MergedList | internal/animelists/dataset.go:77-103 | The merged list has each mapping of a season that the override leaves alone as it was, each mapping of the override with the old episodes if it brings none, and nothing else |
| MergeOverride.MergedIsSorted | internal/animelists/dataset.go:100-102 | It is sorted by the numbers of the TVDB seasons, where other texts count as -1 |
| MergeOverride.AnimeListItem.MergeMapping | internal/animelists/dataset.go:82-97 | The search for the first mapping of the season and its replacement in place, or the appending |
| MergeOverride.AnimeListItem.MergeMappings | internal/animelists/dataset.go:77-103 | The list becomes a merge of the two, by whatever sort |
| MergeOverride.AnimeListItem.MergeOverride | internal/animelists/dataset.go:55-104 | Every field takes the override's value unless that is empty, and the lists are merged |
| EpisodeCodec.PartsOfRendered | internal/anidb/tvdb_episode_map.db.go:24-51 | Splitting the column finds exactly the entries that were printed |
| EpisodeCodec.BeforeRoundTrip | internal/anidb/tvdb_episode_map.db.go:21-65 | For every order, the entries with non-negative keys come back, so the map does if and only if it has no others |
| EpisodeCodec.EpisodesRoundTrip | internal/anidb/tvdb_episode_map.db.go:67-114 | For every order, the non-empty lists of non-negative keys come back, so the map does if and only if there are no others |
| EpisodeScan.PartsAreBetween | internal/anidb/tvdb_episode_map.db.go:49-51 | For any text the parts are what is between semicolons, empty parts aside |
| EpisodeScan.PairIff | internal/anidb/tvdb_episode_map.db.go:52-61 | A part is a pair exactly if the texts before and behind its first dash are numbers |
| EpisodeScan.BeforesAre | internal/anidb/tvdb_episode_map.db.go:49-65 | Scanning any parts gives a key the value of the last pair for it and leaves other keys alone |
| EpisodeScan.EpisodesAre | internal/anidb/tvdb_episode_map.db.go:94-113 | Scanning any parts adds to the list of a key, in order, all numbers that they list for it |
| EpisodeScan.PrintedColumn | internal/anidb/tvdb_episode_map.db.go:24-37 | A printed column has its entries between semicolons and one at either end, or is empty |
| EpisodeCodec.AniDBTVDBEpisodeMapBefore.Value | internal/anidb/tvdb_episode_map.db.go:24-37 | The text is that of all entries, each once, in some order |
| EpisodeCodec.AniDBTVDBEpisodeMapBefore.Scan | internal/anidb/tvdb_episode_map.db.go:39-65 | Every part that is a pair of numbers enters the map, other parts are skipped |
| EpisodeCodec.AniDBTVDBEpisodeMapMap.Value | internal/anidb/tvdb_episode_map.db.go:70-83 | The text is that of all entries, each once, in some order |
| EpisodeCodec.AniDBTVDBEpisodeMapMap.Scan | internal/anidb/tvdb_episode_map.db.go:85-113 | Every number of a part is added to the list of its key, other texts are skipped |
| CommaList.StringsRoundTripIff | internal/db/types.go:165-194 | A list of strings survives the column if and only if no element has a comma and neither end is empty, unless it is the only element |
| CommaList.IntsRoundTrip | internal/db/types.go:196-220 | Every list of integers survives the column |
| CommaList.IntsValue | internal/db/types.go:198-204 | The text is that of the printed elements |
| CommaList.CommaSeperatedInt.Scan | internal/db/types.go:206-220 | Elements are read up to the first that is no number; an unreadable column leaves the list alone |
| Decimal.AtoiIff | internal/anidb/tvdb_episode_map.db.go:53-58 | A text reads as a number exactly if it is its digits behind zeros and a sign, which may be missing or a plus unless the number is negative |
| NewznabQuery.PrintOne | internal/newznab/query.go:59-111 | Setting a field's key adds that field and disturbs none of those before it |
| NewznabQuery.ToValues | internal/newznab/query.go:59-111 | Each field that is set has its key with one value, and there are no other keys |
| NewznabQuery.ParseInts | internal/newznab/query.go:216-225 | All the numbers of a comma-separated list, or an error |
| NewznabQuery.ParseCategories | internal/newznab/query.go:189-197 | The lists of all values joined, or an error |
| NewznabQuery.ParseParam | internal/newznab/query.go:125-210 | The branches of the switch, with their checks and assignments, change the query as the parameter says, or fail as it says |
| NewznabQuery.ParseQuery | internal/newznab/query.go:121-214 | The keys take effect one after the other in some order, until the first failure; no values are demanded, and none where one is taken is the run-time panic |
| NewznabQuery.ParamSurvives | internal/newznab/query.go:125-210 | Parsing one printed parameter gives the field back, or fails if it is a number-like field that is no number |
| NewznabQuery.ParsePrinted | internal/newznab/query.go:121-214 | For every order, parsing printed keys gives the fields parsed so far, or fails exactly if one of them is no number |
| NewznabQuery.RoundTripIff | internal/newznab/query.go:59-214 | For every order, parsing what was printed gives the query back if and only if episode and season are empty or numbers, and the IMDb id is empty or begins with "tt" exactly once |
| NewznabFields.ParsedFields | internal/newznab/query.go:121-214 | For any values and any order of the keys, a query comes out exactly if all values are such as their parameters take, and each field is what the last key with its name gives, whatever the case of the key |
| NewznabFields.FineIff | internal/newznab/query.go:125-210 | One parameter fails exactly if its values are not such, with the panic only if there are none |
| Tunnel.LookupIsLongest | internal/config/http.go:55-74 | The search finds the entry of the longest of the host and what is behind its dots that has one, and nothing exactly if none has |
| Tunnel.RememberingIsTransparent | internal/config/http.go:59-65 | Writing what was found under the host changes no search for any host |
| Tunnel.TunnelMap.GetProxy | internal/config/http.go:55-74 | Every answer is that of the configured map, whatever was looked up before; the search ends |
| Tunnel.TunnelMap.GetDefaultProxyHost | internal/config/http.go:42-47 | The host of the configured default proxy |
| Tunnel.TunnelMap.AutoProxy | internal/config/http.go:78-87 | The environment decides exactly if nothing is configured for the host |
| Tunnel.TunnelMap.ForcedProxy | internal/config/http.go:90-98 | The host's own proxy, else the default one, each only if it names a host |
| Tunnel.TunnelMap.NewzNzbGrabProxy | internal/config/http.go:100-114 | An entry for the host decides, even one without a proxy, before the entry for grabbing |

## Left out

- HTTP handlers, API clients, OAuth, dashboards, NNTP commands and sockets: input and output without invariants of their own.
- SQL, database drivers, cache libraries and the resource pool library: a table is a map with the effect of its upsert, a cache a partial map that may drop entries, a pooled connection is not represented.
- JobLease.AtMostOneExecutor: assumes timely heartbeats, distinct creation times, names that move on and rest for doomed names, each shown to be needed, and an exclusive lock, one clock and fresh reads, the last of which read replicas would break.
- Deleting job records by hand from the dashboard (`internal/dash/api/workers.go:106`, `:208`), which may take away the record of a live run or one with a heartbeat under way.
- A finished job record staying finished: a heartbeat write may land after it, and the model lets it.
- The SQLite advisory lock, which always reports success; exclusion there is that of the scheduler's own mutex.
- `ShouldSkip`, `ShouldWait`, `OnStart`, `OnEnd`, the data column of a job, and jobs that are not exclusive.
- JobTrigger.NoTriggerIsLost: speaks of the time before the scheduler is stopped, when sending would panic.
- AdvisoryLock.PostgresAdvisoryLock.Acquire: must not come after the last release, when the program would dereference nothing.
- MagnetCache.CachesAreTransparent: a write that was done and reported as failed may be there only if what the caches hold for its keys is right anyway; any other takes the caches out of line, and MagnetCache.HalfWriteDeceives shows the harm.
- Magnet cache: files are reduced to the stream ids they are for; several processes on one table, overlapping operations, file tracking, counters, staleness for refreshing; the lifetime of read entries is part of arbitrary eviction.
- LZDecoder.DecompressFromEncodedUriComponent: the countdown is an integer and not a float, integers do not overflow, and the run-time panic of indexing beyond the input is an outcome; the error return after the loop cannot be reached.
- NNTP pool: retries of one acquirer are one phase, connections and `PooledConnection` (whose flag lets only the first release, destruction or hijacking through) are not represented.
- PoolReconnect.WaitIsCappedBackoff: durations do not overflow.
- Memory shared between slices: the result of `GetByAniDBId` points into the memoised groups, and an override's list that is taken over whole is sorted in place for the override too; lists are values here.
- EpisodeSort.SortingGroupsIff: the comparison is by order and not by a difference that could wrap; the same in MergeOverride.
- EpisodeTiling.PartsTile: a mapping list that sets an end, a start or an offset for the item's own season may set any, and parts with such a list need not tile.
- EpisodeTiling.EveryEpisodeHasOnePart: offsets and episode lie within 62 bits, where sums do not wrap; a season that reads as -1 is in absolute order, where every part reaches every episode.
- EpisodeTiling.AbsoluteReachesFarthest: mappings without an end are outside the statement; EpisodeItems.AbsoluteReaches has them, unless they repeat a season or are for a first season or absolute order, whose maps may have an end from before.
- EpisodeMappings.MappedEpisodes: a mapping for a season that the item has a map for already changes that map field by field, as EpisodeItems.FillStops says; what several such changes come to is not restated.
- Season and part boundaries read by `GetByAnidbEpisode`, `AreAbsoluteEpisode` and the absolute conversions: case analysis.
- `HasTVShows`, `HasMovies`, error texts of the query parser, and lower-casing beyond ASCII.
- NewznabQuery.ParseQuery: a missing and an empty category list are the same.
- Tunnel: URLs are reduced to their host, locks are left out (every write is transparent on its own), and parsing the configuration.
- Encryption, tokens, regular expressions and JSON: library code.
