# Verified model of the expert-streaming engine

The engine runs mixture-of-experts models that do not fit in memory. Its promise is that the fast
path computes what the simple path computes: a model file is rewritten once so that expert slices can
be read with direct I/O, an LRU cache keeps recently used slices in a memory window, lanes of I/O
workers fill that window in parallel and ahead of time, and a draft model speeds up decoding. This
project states that promise as theorems, area by area, in Dafny.

`dafny verify dfyconfig.toml` checks everything. One module per file:

| area | modules |
|---|---|
| expert cache | `Lru`, `Residency`, `Batches`, `SliceCache`, `Prefetch`, `CacheRuns`, `DirectIo`, `DirectFills` |
| I/O lanes | `IoScheduler`, `LaneFills` |
| decoding and conversations | `Decoding`, `Sessions`, `Lanes`, `SessionStore` |
| model files | `GgufFormat`, `GgufRoundTrip`, `GgufLayout`, `GgufReader`, `Registry`, `MetaPatch`, `Repack`, `Prepare`, `PreparedFile`, `PreparedAgain`, `PreparedSlices`, `ShiftedFile`, `BareFiles`, `DenseFiles` |
| compact loops | `DriftGate`, `ContextTrim`, `RateLimit` |
| shared | `Bytes`, `Sets` |

## How it is built

Code that updates state is a class or a method with loops (`Lru.Simulator`, `SliceCache.Cache`,
`DirectIo.DirectFile`, `Decoding.Memory`, `Sessions.LlamaContext`, `SessionStore.Store`,
`GgufReader.Reader`, `Repack.Stream`, `ContextTrim.Conversation`, `RateLimit.RateLimiter`, and the
methods of `Registry`, `MetaPatch`, `Prepare` and `DriftGate`). Each is proved equal to a function on
values, and the theorems are about those functions. What such a function means is said again without it,
in the raw fields of its inputs and results, either in the contracts that use it or in a lemma beside it
(`Residency.ServedMeans`, `Registry.ManifestMeans`, `MetaPatch.PairsMean`, `Lanes.CreateMeans` and others). The two concurrent protocols are state machines
over their critical sections. Automatic induction is off throughout: every induction is written out.

**Cache.** `Lru.Touch` is the accounting of the trace simulator. `StackTheorem` removes evictions from
it: the resident list is the longest prefix of the recency list whose bytes fit, for any sizes. That
gives inclusion between capacities and the exact condition for a hit. `Residency` adds the shield
and the byte window that evictions zero. In every reachable state the shielded keys of the list are
its front, so the shield-aware victim is always the back of the list and the cache is plain LRU
(`FindVictim`, `RefinesSimulator`). The mapped backend, the direct backend and filling across lanes are
all `Residency.Fill`. For a cache opened on a model that the registry accepted with every routed tensor
aligned, the source ranges lie in the file and a direct fill fails only if the device does
(`DirectFills.OpenDirect`, `DirectFills.StreamExperts`). `Prefetch` interleaves the unlocked reads, byte
ranges at a time, with everything the lock serialises; `CacheRuns` shows that the demand calls and the
commit loop of a prefetch are runs of that system.

**Lanes.** Sleeping, waking and both condition variables are explicit, so a lost wake-up would show as
a deadlock in `NeverStuck`.

**Decoding.** `Decoding.Answer` is the greedy answer cut before the first end-of-generation token and
at the limit. Drafters are arbitrary, and so are the decode calls that fail and the polls that ask to
stop: both are functions of the call number. Every early end names its cause, so a run completes unless
a call fails or a poll stops it. Each round asks one poll and obeys it, and the counters it returns are tied to
the decode calls made, the tokens decoded and the checkpoints restored. The loop has both rollback modes: trimming both memories, and
checkpoint with replay.

**Conversations.** A ledger is `Synced` with its lane when equal lengths imply equal tokens, which is
what a prefill relies on when it reuses a prefix. The store keeps that through creation, eviction,
removal, stateless requests that empty lane 0, and failed decodes; the one way to lose it is stated
exactly, on the call's inputs, in `StaleIff`. With synced ledgers a request is answered greedily unless
its whole prompt was cached, and then all but its first token is (`ServeConversation`). Failing calls,
refused removals and stopping polls are arbitrary here too. The store keeps the history of granted requests
as a ghost, and its use stamps order the slots as that history does, so fairness is stated on the requests
themselves: a granted request leaves all other conversations as they were, except that one which needs a new
slot displaces those whose last requests lie furthest back, of its owner or of all, and no more than needed
(`Lanes.PlaceMade`).

**Model files.** `ParseIffEncoded` makes the metadata parser and the encoder two halves of one format
(GGUF specification, section "File Structure"), and `GgufLayout` says at which byte of an encoding each field
stands; the file reader is proved against the parser. The
preparation is followed from the bytes read to the bytes written: `Prepare.Prepare` returns exactly
`Expected` and `Output`, whatever the type of the alignment pair and with or without tensors. The theorems of
`PreparedFile`, `PreparedAgain` and `PreparedSlices` are about that output, those of `BareFiles` about
sources without tensors.

## Where the code differs from what is said of it

* `core/include/cne/cache.h:31` says the cap is never exceeded. A batch over an offset source makes
  room for every miss before it commits any, so `m` misses may end up to `m - 1` slices above the cap
  (`Batches.BatchAtFacts`), and that is reached (`Batches.OvershootReached`). Where one more slice fits
  before the call, the cap holds if and only if all absent slices fit together (`Batches.CapKeptIff`); in
  a full cache of equal slices, if and only if at most one is missed (`Batches.FullCapKeptIff`).
* `core/include/cne/cache.h:80` says a prefetch is safe to race with demand fills. A slice that was
  prefetched, then demand-filled, then evicted can still be committed, now zeroed
  (`Prefetch.StaleCommit`). `Prefetch.CoherentIffNeverHarmful` says which runs stay coherent, and
  `Prefetch.CoherentWithoutVictims` that no slice evicted between its read and its commit is enough.
* The shield is not bounded by its nominal 2048 entries. A hit shields without trimming, so touching more
  than 2048 resident slices twice exceeds it (`Batches.ShieldExceeded`), and evictions leave keys in it
  that trimming cannot reach: a commit brings it back to 2048 entries if and only if no more than 2048
  shielded keys have left the list (`Residency.ShieldBoundedIff`).
* The registry's bounds check on the last tensor never fires: its size is defined as the rest of the
  file, modulo 64 bits. Only a file with a single tensor can be accepted out of bounds
  (`Registry.AcceptedTilesIff`, `Registry.SingleTensorAlwaysInBounds`).
* `tools/cne-prepare.cpp:6-8` takes every expert slice to be a whole number of pages already, so that no
  slice moves within its tensor. Where that does not hold, padding can change the stride of a routed
  tensor and the closing validation still accepts the file (`PreparedSlices.StrideKeptIff`,
  `PreparedSlices.ValidatedButShifted`, and a whole file in `ShiftedFile.Exists`). Where it holds, slices
  keep stride and content (`PreparedSlices.SlicesKept`).
* The program stores 4096 as four bytes over whatever integer holds the alignment. An unsigned value ends up
  as 4096 if and only if it has nothing but zeros above those bytes; a signed one is never looked at, so the
  alignment stays what it was (`MetaPatch.AlignedKvsFacts`). Otherwise the closing validation fails
  (`PreparedAgain.ValidOnlyIfPatchable`). A value of one or two bytes is overwritten together with what follows
  it, which keeps the rest intact if and only if the same bytes stood there (`MetaPatch.NarrowIff`).
* A file without tensors is prepared to its metadata alone: any bytes behind it are dropped
  (`BareFiles.BareOutput`).
* Preparing a prepared file succeeds and changes nothing (`PreparedAgain.PreparedTwice`), except when its
  only tensor is empty and would need a gap before it: that file passes the validation, and preparing it
  again fails while copying (`DenseFiles.LoneExists` has one). With more tensors, an empty last one behind
  a gap fails the validation.
* A prompt that is wholly cached decodes nothing, so the first token comes from logits that may belong
  to another context (`Sessions.StaleLogits` runs into it); the answer is right exactly when that token
  is (`Sessions.FirstTokenDecides`).
* A prefill of several batches that fails partway on a lane emptied behind the ledger's back can leave a
  ledger of equal length and different tokens: some pattern of failures does so exactly when the ledger
  is whole batches long, shorter than the prompt and no prefix of it (`Sessions.StaleIff`), and
  `Sessions.StaleLedger` runs into it.
* A file that declares no tensors can be opened although its last value reaches beyond its end: exactly
  when all pairs but the last parse, the last is an array whose skipping ends behind the file, and the
  alignment of the earlier pairs is a power of two (`GgufReader.Reader.Open`). The registry accepts such a
  file if and only if those pairs describe a model without experts (`Registry.OutsideIff`), and
  `DenseFiles.OpenCut` opens and registers one that does not parse.
* Adopting a slot without an owner can lift an owner above the per-user cap. A reused slot keeps the caps if
  and only if it is not adopted by an owner who already holds the cap (`Lanes.ReuseKeepsCapsIff`); creation
  keeps them always (`Lanes.CreationKeepsCaps`). `SessionStore.AboveCap` runs into two slots under a cap of one.
* A drafter whose memory cannot be trimmed drifts from the target when a draft is cut short
  (`Decoding.StaleDrafter`); the emitted tokens stay right. With checkpoints the accepted count always
  equals the drafted count, and the declared count of partial acceptances is never updated.
* The loop detector reports a loop of one token for an empty transcript when one repeat is enough
  (`DriftGate.DetectLoop`).

## Model

| member | source | states |
|---|---|---|
| `Lru.TouchKeepsWf` | tools/lru-sim.cpp:106-129 | A touch keeps the byte counter equal to the resident sizes and keys distinct, counts one hit or miss, missed bytes and evictions each for themselves, leaves the key in front, stays within capacity on a miss |
| `Lru.MakeRoomIsFit` | tools/lru-sim.cpp:116-123 | The eviction loop keeps exactly the longest front of the list that leaves room, and counts what it drops |
| `Lru.RecencySorted` | tools/lru-sim.cpp:106-129 | The unbounded list is ordered by last touch |
| `Lru.StackTheorem` | tools/lru-sim.cpp:97-133 | For every trace, capacity and size table: the resident list is the longest front of the recency list that fits the capacity |
| `Lru.Inclusion` | tools/lru-sim.cpp:97-133 | The list at a smaller capacity is a prefix of the list at a larger one |
| `Lru.HitsGrowWithCapacity` | tools/lru-sim.cpp:97-133 | Hits never decrease and misses never increase with capacity |
| `Lru.HitIffDistanceFits` | tools/lru-sim.cpp:97-133 | A touch hits if and only if the key and all keys touched since its last touch fit together |
| `Lru.Simulator.TouchSlice` | tools/lru-sim.cpp:106-129 | The touch over list, map and counters is the specified touch |
| `Lru.Simulator.Run` | tools/lru-sim.cpp:97-133 | Replaying a trace from empty gives the specified replay |
| `DirectIo.DirectFile.ReadAligned` | core/src/features/streaming/direct_io.cpp:48-76 | Succeeds if and only if the file is open, all three alignments hold, no read fails hard and the range is inside the file; then the destination is the file range; other bytes never change |
| `Residency.PageSpanExact` | core/src/features/streaming/cache.cpp:18-23 | Page rounding leaves a range alone if and only if start and length are page multiples |
| `Residency.SlicesDisjoint` | core/src/features/streaming/cache.cpp:18-23 | Distinct slices occupy disjoint window ranges |
| `Residency.ServedMeans` | core/src/features/streaming/cache.cpp:211-225 | A slice is served if and only if the window, at the tensor's window plus the expert's number of slices, holds what the file holds at the tensor's start plus as many |
| `Residency.DropMeans` | core/src/features/streaming/cache.cpp:126-130 | An eviction zeroes the bytes of that slice in the window and no others |
| `Residency.MakeRoomForFacts` | core/src/features/streaming/cache.cpp:114-137 | Making room keeps the invariant, agrees with plain LRU, and damages no slice that was not resident |
| `Residency.TrimShieldFacts` | core/src/features/streaming/cache.cpp:147-151 | Trimming keeps the shielded keys of the list a front of it, drops no evicted key, and stops above half size only when no listed key is shielded |
| `Residency.TrimLeaves` | core/src/features/streaming/cache.cpp:147-151 | Trimming a shield of at least half size leaves at least half size, and more than that only if every listed key is unshielded; only listed keys go |
| `Residency.ShieldMeans` | core/src/features/streaming/cache.cpp:146-151 | A shield of up to 2048 entries is left alone; a larger one comes down to 1024, or to the keys that are not listed if those are more |
| `Residency.ShieldBoundedIff` | core/src/features/streaming/cache.cpp:146-151 | After a commit the shield is within its capacity if and only if the shielded keys that are not listed are |
| `Residency.CommitKeepsSound` | core/src/features/streaming/cache.cpp:139-152 | Committing a served slice keeps residency coherent with the source and agrees with plain LRU |
| `Residency.HitKeepsSound` | core/src/features/streaming/cache.cpp:89-97 | A hit keeps the invariant |
| `Batches.TouchOneFacts` | core/src/features/streaming/cache.cpp:85-112 | A touch is a plain LRU touch and afterwards the window holds the requested slice |
| `Batches.RefinesSimulator` | core/src/features/streaming/cache.cpp:85-152 | Any sequence of touches from empty gives the hits, misses, evictions, bytes and order of the simulator |
| `Batches.BatchServed` | core/src/features/streaming/cache.cpp:211-225 | If the distinct slices of a batch fit under the cap, each is resident and equal to the source after the batch |
| `Batches.TouchManyCounts` | core/src/features/streaming/cache.cpp:211-225 | Hits plus misses equal distinct requests (the rest are counted as deduplicated); used stays within the cap; misses equal resident plus evicted |
| `Batches.ShieldGrows` | core/src/features/streaming/cache.cpp:89-97 | Touching slices that fit together twice in a row leaves all of them shielded, however many |
| `Batches.ShieldExceeded` | core/src/features/streaming/cache.cpp:89-151 | A run from empty whose shield exceeds 2048 entries |
| `Batches.ClassifyFacts` | core/src/features/streaming/cache.cpp:240-256 | The first phase of an offset batch separates hits from distinct absent slices and only evicts |
| `Batches.BatchAtFacts` | core/src/features/streaming/cache.cpp:227-277 | An offset batch keeps the invariant and the same conservation laws, fills every miss, ends with exactly the bytes left by its first phase plus one slice per miss, and so at most (misses - 1) slices above the cap |
| `Batches.BatchAtServed` | core/src/features/streaming/cache.cpp:227-277 | The service guarantee of a fitting batch, although the batch evicts and zeroes other slices |
| `Batches.CapKeptIff` | core/src/features/streaming/cache.cpp:227-277 | Where one more slice fits, an offset batch evicts nothing, and stays within the cap if and only if all absent slices fit together |
| `Batches.FullCapKeptIff` | core/src/features/streaming/cache.cpp:227-277 | In a full cache of equal slices an offset batch stays within the cap if and only if at most one slice is missed |
| `Batches.OvershootReached` | core/src/features/streaming/cache.cpp:227-277 | The overshoot bound is attained |
| `Batches.FillOrderIrrelevant` | core/src/features/streaming/cache.cpp:257-276 | Filling the misses in any order gives the same window |
| `SliceCache.Cache.constructor` | core/include/cne/cache.h:124-143 | A new cache is valid and empty |
| `SliceCache.Cache.FindVictim` | core/src/features/streaming/cache.cpp:116-124 | The shield-aware search always ends at the back of the list |
| `SliceCache.Cache.EvictLru` | core/src/features/streaming/cache.cpp:126-135 | Evicting zeroes exactly the bytes of the last listed slice and removes it from list, table and byte counter |
| `SliceCache.Cache.MakeRoomLocked` | core/src/features/streaming/cache.cpp:114-137 | The loop makes room as specified |
| `SliceCache.Cache.CommitLocked` | core/src/features/streaming/cache.cpp:139-152 | The commit is the specified commit |
| `SliceCache.Cache.HitLocked` | core/src/features/streaming/cache.cpp:88-97 | The hit is the specified hit: the key comes to the front and is shielded |
| `SliceCache.Cache.FillSlice` | core/src/features/streaming/cache.cpp:46-71 | Either backend leaves the bytes of that expert in its place of the window; a direct fill succeeds if and only if the file is open, the tensor starts on a page and the device does not fail; a failed one spares every other slice |
| `SliceCache.Cache.TouchLocked` | core/src/features/streaming/cache.cpp:85-112 | A touch hits if and only if the key is resident, aborts exactly when a needed direct read fails, and otherwise is the specified touch and leaves the bytes of that expert in its place of the window |
| `SliceCache.Cache.Dedup` | core/src/features/streaming/cache.cpp:211-225 | The distinct requested keys, each once |
| `SliceCache.Cache.TouchBatch` | core/src/features/streaming/cache.cpp:211-225 | A batch is the specified sequence of touches, reports its misses, counts every id as hit, miss or duplicate, and if the distinct ids fit under the cap the window holds the bytes of every one of them at its place |
| `SliceCache.Cache.TouchBatchAt` | core/src/features/streaming/cache.cpp:227-277 | An offset batch, inline or across lanes, aborts exactly when something is missing and the direct reads fail; otherwise it is the specified three phases, counts every id, ends at most (ids - 1) slices above the cap, and if the batch fits the window holds the bytes of every id at its place |
| `Prefetch.StepKeepsInv` | core/src/features/streaming/cache.cpp:165-209 | Every step of every interleaving keeps list, shield, byte counter and lock discipline consistent |
| `Prefetch.StepData` | core/src/features/streaming/cache.cpp:165-209 | A step keeps resident bytes equal to the source if and only if it is not a commit of bytes lost to an eviction |
| `Prefetch.RunKeepsInv` | core/src/features/streaming/cache.cpp:165-209 | In every state of every run list, shield, byte counter and locks are consistent |
| `Prefetch.CoherentIffNeverHarmful` | core/src/features/streaming/cache.cpp:165-209 | A run is coherent throughout if and only if no commit in it takes bytes that an eviction zeroed since they were read |
| `Prefetch.CoherentWithoutVictims` | core/src/features/streaming/cache.cpp:165-209 | If no slice is evicted between its read and its commit, the run is coherent throughout |
| `Prefetch.RunBalance` | core/src/features/streaming/cache.cpp:114-209 | Over any run, when every slice fits the cap, misses plus prefetched slices equal those resident, evicted, or filled and about to be recorded |
| `Prefetch.StaleCommit` | core/include/cne/cache.h:78-83 | A run in which a prefetch racing demand fills commits a zeroed slice as resident |
| `CacheRuns.TouchIsARun` | core/src/features/streaming/cache.cpp:85-112 | A touch is a run of the interleaved system |
| `CacheRuns.BatchAtIsARun` | core/src/features/streaming/cache.cpp:227-277 | An offset batch is a run of the interleaved system |
| `CacheRuns.PrefetchIsARun` | core/src/features/streaming/cache.cpp:197-208 | From any state in which all reads are done, the commit loop of a prefetch with its evictions is a run of the interleaved system |
| `CacheRuns.PrefetchFitsIff` | core/src/features/streaming/cache.cpp:197-208 | The commit loop leaves the cache within the cap if and only if it was so before or one of its slices was absent; without absent slices it changes nothing |
| `DirectFills.SourceAligned` | runtime/cne_stream_cb.cpp:588-598 | If all routed tensors of the manifest are aligned, every streamed tensor starts on a page |
| `DirectFills.AcceptedSetup` | core/src/gguf/model_registry.cpp:77-145 | For an accepted file whose routed tensors are all aligned, every streamed tensor lies inside the file and starts on a page |
| `DirectFills.OpenDirect` | runtime/cne_stream_cb.cpp:588-598 | A cache opened on such a model is valid, and every tensor of it can be read directly |
| `DirectFills.StreamExperts` | runtime/cne_stream_cb.cpp:534-538 | A direct batch of such a cache ends the process only if the device fails a read; otherwise, if it fits, the window holds for every id the bytes of that expert in the model file |
| `IoScheduler.StepKeepsInv` | core/src/features/streaming/io_scheduler.cpp:24-70 | Every step of the pool keeps its invariant |
| `IoScheduler.HistoryInv` | core/src/features/streaming/io_scheduler.cpp:7-70 | The invariant holds after every legal history, over any number of lanes and runs |
| `IoScheduler.HistoryMeans` | core/src/features/streaming/io_scheduler.cpp:7-60 | After any history the pool has one worker for each lane asked for, at least one; its batch is the latest submitted, its log holds what the jobs of that batch answered, and it is shut down only if told to |
| `IoScheduler.ExecutesCurrentBatch` | core/src/features/streaming/io_scheduler.cpp:43-64 | A worker that holds a job holds one of the current run |
| `IoScheduler.ReturnIsExact` | core/src/features/streaming/io_scheduler.cpp:24-41 | When a run returns, every job was executed exactly once, no worker holds one, and success means all succeeded |
| `IoScheduler.PendingCountsUnfinished` | core/src/features/streaming/io_scheduler.cpp:52-66 | The pending counter is the number of unfinished jobs |
| `IoScheduler.NeverStuck` | core/src/features/streaming/io_scheduler.cpp:24-70 | While a run is under way some step is possible: no wake-up is lost |
| `IoScheduler.StepsDecrease` | core/src/features/streaming/io_scheduler.cpp:24-70 | Every such step decreases a measure, so the run returns |
| `IoScheduler.ShutdownCompletes` | core/src/features/streaming/io_scheduler.cpp:14-22 | After shutdown every worker has left or leaves at its next step |
| `LaneFills.LanesFillLikeInline` | core/src/features/streaming/cache.cpp:257-276 | Misses executed by the pool, in whatever order, leave the window of the inline loop, with every miss served |
| `Decoding.AnswerMeans` | server/cne-server.cpp:444-462 | The sequential answer: every token is the greedy one behind those before it, none is a marker, and it is shorter than the limit only if a marker comes next |
| `Decoding.AcceptIsGreedy` | runtime/cne_stream_spec.cpp:193-202 | Verification returns a greedy continuation, for every draft |
| `Decoding.AcceptStops` | runtime/cne_stream_spec.cpp:193-202 | Acceptance ends before the end of the draft only at a token that differs from the draft |
| `Decoding.TrimLeavesCommitted` | runtime/cne_stream_spec.cpp:237-243 | After acceptance, trimming leaves exactly the committed tokens |
| `Decoding.StaleDrafter` | runtime/cne_stream_spec.cpp:237-243 | A memory that cannot be trimmed is in step after a round if and only if the whole draft was accepted |
| `Decoding.EmitAccepted` | runtime/cne_stream_spec.cpp:219-236 | The accept loop emits a prefix of the sequential answer and stops exactly at its end |
| `Decoding.RollBack` | runtime/cne_stream_spec.cpp:204-217 | Restoring the checkpoints brings both memories back to the state before the draft |
| `Decoding.GenerateSpeculative` | runtime/cne_stream_spec.cpp:25-247 | For any drafter, both rollback modes and any failures and stops: a completed run emits exactly the sequential greedy answer, any other run a prefix of it; every round asks one poll, the run stops at the first that says so and only then, with nothing emitted if the first does; each other early end is the failure of the last call; the counters of rounds, drafted and accepted tokens are those of the calls, tokens and restores that took place |
| `Sessions.TokenCommonPrefix` | runtime/cne_session.cpp:8-14 | The longest common prefix |
| `Sessions.PrefillChunked` | runtime/cne_session.cpp:34-50 | The lane gains exactly the batches before the first failing decode; logits are for the last token only |
| `Sessions.SessionPrefill` | runtime/cne_session.cpp:52-114 | On success the ledger is the prompt, reused plus prefilled is its length, and what was reused is all of the common prefix unless lane and ledger differ in length or the removal behind it is refused; the logits are fresh if anything was prefilled, and nothing is prefilled only if the ledger covers the whole prompt; a lane that only grows gets exactly the batches before the first failure; only its own lane changes; every way to fail is described |
| `Sessions.SyncedPrefillIsPrompt` | runtime/cne_session.cpp:52-114 | From a synced ledger the lane holds exactly the prompt, as a stateless prefill would leave it |
| `Sessions.ReuseIsSoundIff` | runtime/cne_session.cpp:61-100 | Reusing a prefix gives the prompt if and only if lane and ledger agree on that prefix |
| `Sessions.AbandonedKeepsSynced` | runtime/cne_session.cpp:52-114 | A failed prefill leaves the ledger synced unless the inputs allow it to go stale and decoding stopped exactly at the length of the ledger; always synced for prompts of one batch |
| `Sessions.StaleIff` | runtime/cne_session.cpp:34-86 | Some pattern of decode failures makes the ledger stale if and only if the lane was emptied, and the ledger is some whole batches long, shorter than the prompt and no prefix of it |
| `Sessions.StaleLedger` | runtime/cne_session.cpp:34-114 | A run in which a failing two-batch prefill makes the next prefill reuse the wrong token |
| `Sessions.FirstTokenDecides` | server/cne-server.cpp:444-462 | Logits of another context give the right answer if and only if they give the right first token |
| `Sessions.StaleLogits` | runtime/cne_session.cpp:101-113 | A run in which a wholly cached prompt is answered from the logits of another conversation |
| `Sessions.GenerateInSession` | server/cne-server.cpp:418-465 | With a synced ledger the answer is the greedy one unless the whole prompt was cached, and then it is greedy but for a first token drawn from the previous logits; what is reused is exactly what a prefill reuses; the ledger is prompt plus answer and stays synced; one poll is asked before each token and obeyed, and any other early end is the failure of the last decode call |
| `Sessions.GenerateStateless` | server/cne-server.cpp:429-465 | The sequential arm emits the greedy answer, leaves lane 0 empty and the other lanes alone; one poll is asked before each token and obeyed, and any other early end is the failure of the last decode call |
| `Lanes.EvictSound` | runtime/cne_session.cpp:178-211 | Evicting a slot frees its lane, empties it and keeps the store invariant |
| `Lanes.CreateSound` | runtime/cne_session.cpp:213-245 | A slot created on a free lane keeps lanes exclusive |
| `Lanes.AdoptionCounts` | runtime/cne_session.cpp:217-229 | Adopting an unowned slot raises the owner count by one, unchecked |
| `Lanes.OldestUnique` | runtime/cne_session.cpp:178-211 | Within a scope one slot has the least tick, whatever the iteration order of the table |
| `Lanes.EvictionIsFair` | runtime/cne_session.cpp:213-245 | For any request to a store within its caps: each creation evicts at most one slot, the oldest of its scope, and an owner at the cap only loses slots of its own |
| `Lanes.PlaceMade` | runtime/cne_session.cpp:178-245 | In any store, caps exceeded or not: a creation for an owner at its cap or above displaces that owner's slots whose last requests lie furthest back, down to one below the cap; otherwise the slot of all whose last request lies furthest back if store or lanes are full, and else none |
| `Lanes.ReuseMeans` | runtime/cne_session.cpp:217-229 | Reusing a slot makes it strictly the most recent, adopts it if it has no owner, and changes no other slot and no lane |
| `Lanes.CreateMeans` | runtime/cne_session.cpp:213-245 | A created slot is strictly the most recent, has the owner, an empty ledger and an empty lane; those it displaces are as above, and all others keep slot and lane |
| `Lanes.CreationKeepsCaps` | runtime/cne_session.cpp:213-245 | In any sound store, anonymous slots included, creation leaves a named owner within the cap, gives no other owner more slots, and keeps all caps |
| `Lanes.ReuseKeepsCapsIff` | runtime/cne_session.cpp:217-229 | Reusing a slot keeps the caps if and only if it is not an adoption by an owner who holds the cap |
| `SessionStore.Store.SetSeqCapacity` | runtime/cne_session.cpp:143-151 | A lane is free if and only if no slot holds it |
| `SessionStore.Store.AllocSeq` | runtime/cne_session.cpp:153-161 | Takes the lowest free lane, and fails only when none is free |
| `SessionStore.Store.GetOrCreate` | runtime/cne_session.cpp:213-245 | Refuses exactly another owner and then changes nothing; a granted request joins the history, is strictly the most recent, changes everything and only what reuse or creation changes, displaces only the longest unused; use stamps follow the history, ledgers stay synced, and the caps survive if and only if it does not adopt a slot at the cap |
| `SessionStore.Store.Remove` | runtime/cne_session.cpp:247-254 | Removing takes away that slot, empties and frees its lane and changes nothing else; ledgers stay synced and caps hold |
| `SessionStore.AboveCap` | runtime/cne_session.cpp:213-245 | A run under a cap of one whose user ends with two slots |
| `SessionStore.Store.Clear` | runtime/cne_session.cpp:256-260 | Clearing leaves no slot, all lanes free and empty |
| `SessionStore.ServeConversation` | server/cne-server.cpp:418-489 | Access is refused exactly for the slot of another owner, and then nothing changes. A granted request is the most recent, spares all other conversations and lanes except the longest unused that a new or restarted one displaces, keeps the store valid and its ledgers synced, reuses exactly the cached part of the prompt, and is answered greedily, up to a first token from earlier logits if nothing had to be decoded; one poll before each token is obeyed, and any other early end is the failure of the last decode call |
| `SessionStore.WhollyReused` | runtime/cne_session.cpp:87-113 | Nothing is decoded before the first token only if an existing conversation goes on and had cached the whole prompt |
| `SessionStore.ServeStateless` | server/cne-server.cpp:429-465 | A stateless request answers greedily, obeys one poll before each token, ends early otherwise only by the failure of the last decode call, and keeps store and ledgers valid although it empties lane 0 |
| `GgufFormat.FromToLE` | core/src/gguf/gguf.cpp:52-74 | Little-endian numbers read back |
| `GgufFormat.ToFromLE` | core/src/gguf/gguf.cpp:52-74 | Every byte string is the encoding of the number it reads as |
| `GgufLayout.LittleEndian` | core/src/gguf/gguf.cpp:72-74 | In a number of four bytes the first counts least |
| `GgufLayout.HeaderLayout` | core/src/gguf/gguf.cpp:198-210 | Magic, version, tensor count and pair count stand at bytes 0, 4, 8 and 16 |
| `GgufLayout.StringLayout` | core/src/gguf/gguf.cpp:76-86 | A string is its length in eight bytes and its bytes |
| `GgufLayout.PairLayout` | core/src/gguf/gguf.cpp:109-163 | A pair is its key, its type in four bytes and its value |
| `GgufLayout.ValueLayout` | core/src/gguf/gguf.cpp:88-107 | What a value of each type looks like, arrays included |
| `GgufLayout.EntryLayout` | core/src/gguf/gguf.cpp:165-191 | A directory entry is name, dimension count, dimensions, type and offset |
| `GgufRoundTrip.MetaComplete` | core/src/gguf/gguf.cpp:109-236 | Parsing an encoded metadata section gives its content and its length, whatever follows |
| `GgufRoundTrip.MetaSound` | core/src/gguf/gguf.cpp:109-236 | What parses is the encoding of what it parsed to |
| `GgufRoundTrip.ParseIffEncoded` | core/src/gguf/gguf.cpp:109-236 | A file parses to a content if and only if it starts with the encoding of that content |
| `GgufReader.Reader.SkipValue` | core/src/gguf/gguf.cpp:88-107 | Skipping accepts exactly the well-typed values inside the file and ends behind them; outside, it ends exactly where the cursor is carried to |
| `GgufReader.Reader.ReadKv` | core/src/gguf/gguf.cpp:109-163 | Reading a pair fills the tables as specified and remembers where the value stands; it succeeds behind the end of the file exactly for an array that runs out, and then records nothing |
| `GgufReader.PowerOfTwoIff` | core/src/gguf/gguf.cpp:222-223 | The alignment test accepts exactly the powers of two |
| `GgufReader.Reader.Open` | core/src/gguf/gguf.cpp:193-236 | Opening succeeds and ends inside the file if and only if the file parses and its alignment is a power of two; it succeeds and ends outside if and only if there are no tensors, the last pair is an array that runs out and the pairs before it parse with such an alignment; either way tables, directory and field positions are those of the pairs and tensors read, and the data offset is the first multiple of the alignment behind the metadata |
| `Registry.SortedAscending` | core/src/gguf/model_registry.cpp:70-75 | Sorting gives the same tensors in ascending offset order |
| `Registry.Build` | core/src/gguf/model_registry.cpp:21-145 | Building succeeds if and only if the file parses and the structural checks hold, or it is opened outside its end and its pairs describe a model without experts; the manifest is the specified one in both cases, and its data offset is the first multiple of its alignment behind the metadata |
| `Registry.BuildIff` | core/src/gguf/model_registry.cpp:28-139 | The structural checks: usable pairs, routed entries with a dimension of the expert count, some routed entry if there are experts, spans that fit and distinct offsets |
| `Registry.BuildRequires` | core/src/gguf/model_registry.cpp:31-102 | What is rejected, on pairs and directory: no architecture or layer count, an expert count that is not unsigned and positive, experts without a used count or without a routed tensor, a routed tensor without experts or without a dimension of their number |
| `Registry.SpanMeans` | core/src/gguf/model_registry.cpp:77-92 | A tensor starts at the data offset plus its own and ends where the next starts or the file ends, modulo 64 bits |
| `Registry.ManifestMeans` | core/src/gguf/model_registry.cpp:70-145 | The manifest lists each directory entry once, in ascending offset order, with kind, span and bytes per expert |
| `Registry.CountsMean` | core/src/gguf/model_registry.cpp:104-127 | The counts are the numbers of routed tensors that are aligned or misaligned in start, slice or both |
| `Registry.OutsideIff` | core/src/gguf/model_registry.cpp:21-145 | A file whose pairs run out is accepted if and only if they name a model without experts; its manifest has no tensors and its data starts behind the file |
| `Registry.AcceptedTilesIff` | core/src/gguf/model_registry.cpp:77-139 | Accepted spans are disjoint, in bounds and tile the file from the first tensor to its end, except for a single tensor that starts behind the end |
| `Registry.SingleTensorAlwaysInBounds` | core/src/gguf/model_registry.cpp:130-134 | A lone tensor passes the bounds check wherever it starts |
| `Registry.TilesDisjoint` | core/src/gguf/model_registry.cpp:128-139 | Tiling spans are ordered, disjoint and inside the file |
| `Registry.SliceReadsLegal` | runtime/cne_stream_cb.cpp:591-598 | If all routed tensors are aligned, every expert slice read is aligned and inside the file |
| `MetaPatch.TablesMean` | core/src/gguf/gguf.cpp:109-163 | A table holds for each key the value of the last pair of its sort under that key |
| `MetaPatch.PairsMean` | tools/cne-prepare.cpp:108-137 | The rewritten pairs are the old ones with the bytes 00 10 00 00 in front of the last integer under general.alignment, or with a UINT32 pair of those bytes at the end if there is none |
| `MetaPatch.AlignedKvsFacts` | tools/cne-prepare.cpp:108-137 | After the rewrite the file alignment is 4096 if and only if the pair is absent, or unsigned with zeros above its four low bytes, or signed beside an effective alignment of 4096; rewriting twice is rewriting once |
| `MetaPatch.RewriteKeepsKeys` | tools/cne-prepare.cpp:108-137 | Every other key keeps its value in every table |
| `MetaPatch.SignedPatchHasNoEffect` | tools/cne-prepare.cpp:111-115 | Patching an alignment stored as a signed number leaves the effective alignment as it was |
| `MetaPatch.AlignPatched` | tools/cne-prepare.cpp:114-115 | Storing four bytes at the recorded position of an alignment of at least four bytes gives the encoding of the rewritten pairs |
| `MetaPatch.AlignInserted` | tools/cne-prepare.cpp:116-136 | Inserting the pair at the end of the pairs and bumping the count gives the encoding of the rewritten pairs |
| `MetaPatch.NarrowIff` | tools/cne-prepare.cpp:111-115 | Over a narrower value the store gives an encoding of the otherwise unchanged content if and only if the bytes behind the value agree already |
| `MetaPatch.OffsetPatched` | tools/cne-prepare.cpp:138-144 | Storing one offset field replaces that offset and nothing else |
| `MetaPatch.PatchMeta` | tools/cne-prepare.cpp:108-144 | The patched buffer is the encoding of the content with the new alignment and offsets; where the alignment value is narrower than four bytes, it is the encoding with the new offsets and four bytes stored over that value |
| `Repack.CopySpan` | tools/cne-prepare.cpp:182-206 | The chunked copy moves the whole span, or fails exactly when a byte of it cannot be read or written |
| `Repack.CopyAll` | tools/cne-prepare.cpp:179-207 | Copying all spans succeeds if and only if all can be read, and gives the packed file |
| `Repack.PieceHeld` | tools/cne-prepare.cpp:179-207 | The packed file holds every span at its new place |
| `Repack.PieceCarried` | tools/cne-prepare.cpp:179-207 | Gaps between spans read as zeros |
| `Repack.RepackIdentity` | tools/cne-prepare.cpp:179-207 | Packing the packed file again gives the same bytes |
| `Prepare.LayoutNext` | tools/cne-prepare.cpp:87-93 | A tensor that is followed by another is not empty, and the next starts at its padded end |
| `Prepare.PieceFacts` | tools/cne-prepare.cpp:87-93 | Every new place is page aligned, nothing wraps, and every source span is readable |
| `Prepare.ReadableIffTiled` | tools/cne-prepare.cpp:179-207 | The copy can read all spans if and only if the manifest tiles the file |
| `Prepare.Prepare` | tools/cne-prepare.cpp:38-235 | For any accepted or rejected source, the outcome is the one specified for that file, space and destination, and the file written is the specified output |
| `Prepare.OutcomeMeans` | tools/cne-prepare.cpp:64-235 | Which check an accepted source fails first: a directory out of order, a layout smaller than the source, too little space, an unwritable destination or a span that reaches behind the source, and then the closing validation |
| `PreparedFile.MeaningPreserved` | tools/cne-prepare.cpp:64-207 | The output parses to the source content with new offsets and every other key, name, dimension and type as before, and with alignment 4096 if and only if the source pairs can be patched |
| `PreparedFile.TensorKept` | tools/cne-prepare.cpp:179-207 | Every tensor starts on a page and its span holds the source bytes |
| `PreparedFile.PlaceMeans` | tools/cne-prepare.cpp:87-207 | The first tensor starts on the first page behind the metadata, each other on the first page behind the one before it; new offsets count from the first, the bytes are those of the source, and the new size is the first page border behind the last |
| `PreparedFile.EndsInsideIff` | tools/cne-prepare.cpp:145-146 | The data ends with the last tensor if and only if that is not an empty tensor behind a gap |
| `PreparedFile.NewInfo` | tools/cne-prepare.cpp:217-222 | The span the registry derives for each tensor of the output |
| `PreparedFile.OutputRegistered` | tools/cne-prepare.cpp:217-222 | The registry accepts the output, with the expected manifest |
| `PreparedFile.Idempotent` | tools/cne-prepare.cpp:64-207 | If the data ends with the last tensor, the registry accepts the prepared file and preparing it again gives a byte-identical file |
| `PreparedAgain.SecondOutcome` | tools/cne-prepare.cpp:38-235 | Preparing the output again is never rejected, unsorted, too small or a failed copy, given that the data ends with the last tensor |
| `PreparedAgain.ValidOnlyIfPatchable` | tools/cne-prepare.cpp:223-228 | The closing validation passes only if the alignment pair of the source could be patched |
| `PreparedAgain.GapRejected` | tools/cne-prepare.cpp:215-222 | With two or more tensors, an output that ends before its last tensor is rejected by the registry |
| `PreparedAgain.LoneFails` | tools/cne-prepare.cpp:179-207 | For a lone empty tensor behind a gap the second run fails while copying |
| `PreparedAgain.PreparedTwice` | tools/cne-prepare.cpp:38-235 | After a successful run on a file with tensors, the second run succeeds with the same bytes if the data ends with the last tensor, which with two or more tensors it does, and otherwise fails while copying |
| `BareFiles.BareOutput` | tools/cne-prepare.cpp:145-207 | For a source without tensors the output is the rewritten metadata and nothing else |
| `BareFiles.BareOutcome` | tools/cne-prepare.cpp:38-235 | Such a run is too small if the source is larger than the padded metadata, lacks space if that does not fit, and otherwise succeeds if and only if the alignment could be patched |
| `BareFiles.BareTwice` | tools/cne-prepare.cpp:38-235 | A successful run on a source without tensors can be repeated and then changes nothing |
| `DenseFiles.CutOpens` | core/src/gguf/gguf.cpp:88-163 | Any well-formed pairs followed by an array that announces one byte more than the file has run out behind its end |
| `DenseFiles.OpenCut` | core/src/gguf/gguf.cpp:193-236 | A concrete file that does not parse is opened and registered, with its data behind its end |
| `DenseFiles.LoneExists` | tools/cne-prepare.cpp:38-235 | A concrete file with one empty tensor whose first run succeeds and whose second fails while copying |
| `PreparedSlices.SlicesKept` | tools/cne-prepare.cpp:4-9 | If slices are whole pages, every expert slice keeps its stride and its content |
| `PreparedSlices.StrideKeptIff` | tools/cne-prepare.cpp:4-9 | The stride of a routed tensor survives if and only if it is last or its padding stays within one division step |
| `PreparedSlices.ValidatedButShifted` | tools/cne-prepare.cpp:223-227 | Two slices of 4080 bytes become two of 4096 and the closing validation passes |
| `ShiftedFile.Exists` | tools/cne-prepare.cpp:4-9 | A complete file that is accepted, prepared and validated, and whose second expert moved |
| `PreparedSlices.VerdictIff` | tools/cne-prepare.cpp:215-227 | The closing validation passes if and only if the alignment could be patched, every routed tensor has page-multiple slices in the output and no tensor reaches into a gap at the end |
| `PreparedSlices.PreparedReadsLegal` | runtime/cne_stream_cb.cpp:591-598 | In a validated file every expert slice read is aligned and inside the file |
| `DriftGate.CountRepeats` | tools/drift_gate.py:114-120 | The number of trailing copies of the last block, maximal |
| `DriftGate.CutOffLosesNothing` | tools/drift_gate.py:113 | No period beyond the length divided by the repeat minimum can qualify |
| `DriftGate.DetectLoop` | tools/drift_gate.py:111-127 | A loop is reported if and only if one exists; it covers the most tokens, ties go to the smallest period; false exactly for an empty transcript with a repeat minimum below two and a positive period bound |
| `ContextTrim.PrunedKeeps` | server/cne-server.cpp:497-506 | Trimming keeps all system messages and the latest others |
| `ContextTrim.PrunedInOrder` | server/cne-server.cpp:497-506 | Trimming keeps the order |
| `ContextTrim.Conversation.TrimForContext` | server/cne-server.cpp:492-509 | Exactly the first k non-system messages go, with k the least for which the loop may stop |
| `RateLimit.CountIsQueue` | runtime/cne_api.cpp:180-181 | After expiry the queue length is the number of accepted requests in the last closed minute of the full history |
| `RateLimit.InWindowIs` | runtime/cne_api.cpp:175-181 | A request counts while it is at most sixty seconds old |
| `RateLimit.RateLimiter.Allow` | runtime/cne_api.cpp:175-185 | Under a clock that never goes back, a request is allowed if and only if fewer than the limit were accepted in the last closed minute, and no minute ever holds more |

## Left out

- llama.cpp and the operating system are oracles: a failed decode changes nothing, removing a whole lane always succeeds, partial removal may fail, restoring a checkpoint gives the saved tokens.
- Sampling with temperature: the target is greedy, a function of the context.
- The 64-bit key of a (tensor, expert) pair is taken to be injective, and counters do not overflow.
- Slices are page multiples at page-aligned addresses, and windows of tensors do not overlap; page rounding of other slices would also zero their neighbours.
- `unordered_set` iteration and `std::sort` of equal offsets: the first is an arbitrary order, the second keeps directory order.
- SliceCache.Cache.TouchLocked: after a failed read the original aborts the process, so only what the window then holds of other slices is stated; the same for SliceCache.Cache.TouchBatchAt.
- Prefetch.CoherentIffNeverHarmful: a failing prefetch read writes nothing of its own here, and one prefetch is in flight at a time.
- IoScheduler.NeverStuck: spurious wake-ups are left out (a worker or caller only re-tests its predicate), and reading the job under the lock is one step with claiming it.
- IoScheduler.HistoryMeans: a run without jobs returns at once and is no step of the pool.
- Verification of filled slices, the debug environment switches, timing statistics and log output.
- Requests are atomic on the engine thread; overlap of HTTP handlers with streaming jobs is not modelled.
- SessionStore.Store.GetOrCreate: slots are values in a map, so the pointer handed to the caller is modelled by its key.
- Sessions.SessionPrefill: a context without memory is not modelled.
- GgufReader.Reader.Open: decoding of floating-point values and the sign extension of small integers; the bytes are kept.
- Registry.Build: tensor classification by name is a parameter, and the layer numbers, type names, architecture names and other descriptive fields of the manifest are dropped.
- Prepare.Prepare: the new layout fits 64 bits, and the four bytes of the alignment stay inside the metadata (they do unless the file has no tensors and ends with a narrow alignment pair, where the program writes behind its buffer); the source can be read throughout, opening or writing the destination fails as a whole, and progress output is dropped.
- PreparedAgain.PreparedTwice: an alignment pair of one or two bytes is left out, and so it is in the other theorems about what an output means; for those only the bytes written (`Prepare.Prepare`) and the tensors kept (`PreparedFile.TensorKept`) are stated.
- PreparedFile.Idempotent: stated when the data ends with the last tensor; `PreparedAgain.PreparedTwice` drops that for any successful first run.
- RateLimit.RateLimiter.Allow: the map of queues is read and updated in one atomic step.
- Fallback of direct files to buffered reads, configuration, HTTP and JSON, the visible-text filter of the emitter, expert-mass gating, memory and KV budgets, the other measurements of the drift gate.
