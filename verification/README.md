# Verified model of resumable_batch

A Dafny model of the run orchestrator (`engine.py`), the crash-atomic checkpoint store
(`stores/base.py`, `durability.py`) and its JSONL codec (`stores/jsonl.py`), with proofs of the
properties the library exists for: a run returns what a sequential, uncached evaluation of its
split tree returns, whatever was cached, however futures finish, whatever fails transiently and
wherever earlier runs crashed.

`dafny verify dfyconfig.toml` checks everything.

## How the model is laid out

The codec and the store:

- `KeyOrder`, `Json`, `JsonRoundTrip`, `JsonGrammar`, `JsonPrefix`, `Utf8`: ascending key order,
  `json.dumps`/`json.loads` on null, booleans, integers, strings, arrays and string-keyed objects
  (RFC 8259), which texts are read as which values, what reading makes of a text that was cut short,
  and strict UTF-8.
- `Jsonl`, `Manifest`: the payload file and the manifest, as written and as read back. `Spelling`:
  what is written, to the character.
- `Store`: what a probe answers for given in-memory entries and files, what every micro-step of a
  commit leaves on disk, what opening accepts. `StoreTheorems`: one commit, one crash, one reopening.
- `StoreHistory`: all histories of openings, commits that return, raise or die at any micro-step,
  crashes, and a weak disk that independently drops, reverts or tears payload files and manifest.
- `StoreObject`: the store as a class over a disk object whose every operation may fail, and which
  records the operations that did, so that a reported failure always has one behind it.

The orchestrator:

- `Work`, `Backoff`: items, policies, delays (over the reals).
- `Scheduler`: one run as a state machine. The environment chooses the next event, which future
  finishes, with which outcome, the clock and the jitter draw. A `History` records what the code
  does not keep (order of commits, executions per key, split parents) for the statements.
- `Flow`, `Totals`, `Conservation`, `Accounting`, `Counters`, `Retries`, `Timing`, `Termination`,
  `Frontier`: the whole-run invariants, what the counters count, and which exception ends a run.
- `Transparency`, `Resume`, `Composition`: reference evaluation, schedule independence, sequences
  of runs over one open store, and runs over a store with any history.
- `Ledger`, `Sessions`, `LateCommit`: a run together with the disk under its store, what each of its
  commits did in memory and on disk; sequences of runs that each reopen the store on the disk the
  one before it left; and the run of two sessions in which a leaf is committed and nobody is told.
- `Campaign`: sessions on a disk that loses, reverts, tears or overwrites files in between, each of
  them shown to be a stretch of a `StoreHistory`.
- `TotalCorrectness`: what an endless run in a fair environment comes to.
- `Engine`, `Checkpointed`: `run_checkpointed` as the code has it, a class with the queues, maps and
  counters as fields, loops included, proved to follow the state machine event by event on top of
  the store object; then the combine modes and the final stitch or fold.

## Hypotheses, and where they enter

- SHA-256 is an arbitrary function. Only the statements about altered bytes (`HitIsComplete`, and the
  corrupted branches of `HitIsVouchedFor`, `Composition` and `Campaign`) assume it collision-free.
- `uuid4` gives an identity no manifest entry or earlier commit has. `uniform` is an arbitrary draw;
  only the bounds on delays assume it lies within the jitter interval. The clock is an arbitrary
  reading; only the ordering statements assume it monotonic.
- Callbacks are functions of their arguments. `Transparency` asks that each item either yields one
  result or divides (an `Outcome`), with transient failures allowed at any time, and that whatever
  the initial cache answers is right. `Resume`, `Sessions` and `Campaign` also ask that items with one
  identity have one outcome.
- The record validator may refuse what items yield. A leaf whose result it accepts is called accepted;
  what is said of commits that are kept, or made once, is said of accepted leaves, and
  `LandsAgainIff` says what becomes of the others. Only the statements about running again after a
  success assume that every leaf is accepted.
- `TotalCorrectness` and `FairRunsEnd` assume a fair environment: of the running futures one finishes
  after a while, a free worker is given what is ready, and the clock passes every due time.
- One writer per cache directory, as the lock guarantees.
- `Resume` is about several runs over one open store, so its cache carries over as it is. What a
  reopening in between changes is the subject of `Sessions`: each session starts with any opening
  `Opened` allows on the disk the last one left. It assumes that the disk is intact between
  sessions, that the store's validator is the configured one, and that no identity key is named like
  a temporary file; `SweptKeyExample` shows that the last cannot be dropped. `ReopenedViewIsLive` says
  when a reopening shows what memory showed. `Campaign` drops the intact disk and the names.

## Where the code does not do what a reader may expect

- `commit` never consults the record validator, `has` does. A committed result the validator rejects
  is counted as committed, is a miss forever, and makes the final stitch of that very run raise.
  `CommitThenProbe` gives the exact condition, `RejectedCommitExample` an input, `RunIsTransparent`
  the condition under which a finished run can be stitched. Such a result is executed and committed
  again by every later session that finishes, and no other result is (`LandsAgainIff`).
- The sweep at opening deletes whatever matches `*.tmp.*`, and keys may contain dots: the key
  `a.tmp.b` is safe to commit, its result is answered for, and the next opening deletes it
  (`SweptKeyExample`, `TmpNamedCommitIsLost`). `ReopenKeepsHit` says that a hit survives every
  reopening exactly when its file name does not match. Hex digests never match (`HexKeysAreSafe`).
- `commit` rolls memory back when writing the manifest raises, so that memory never reports a result
  the manifest does not vouch for. The converse can fail: if only the last directory fsync raises, the
  new manifest is already in place. The run ends with an exception and does not count the commit, and
  the next opening answers for it (`ReopenedAfterCommit`, `MemoryIsManifest`). So "each leaf is
  committed exactly once" holds of accepted commits that reached the disk, and of those that returned
  exactly if none raised that late (`Sessions.ExactlyOnceIff`); `ReturnedByNobody` is a run of two
  sessions in which a leaf's commit never returns and the output is complete.
- The backoff is described as "full jitter"; the code draws a factor in `[1 - jitter, 1 + jitter]`
  and applies it after the cap, so a jittered delay can exceed `max_delay`
  (`JitterExceedsCapExample`). It cannot exactly when `capped * (1 + jitter) <= max_delay`
  (`CapHoldsIff`).
- "Strictly smaller children" is enforced only when the parent's and all children's sizes are
  positive: with the default sizes and no target size, a larger child goes through
  (`NonShrinkingExample`; `SplitGoesThrough` has the condition). Termination rests on the depth cap
  instead (`FinitelyManyExecutions`).
- A split refused for a duplicate child leaves the terminal leaves untouched (`SplitGoesThrough`) but
  not always the set of live keys: children admitted before the duplicate stay registered
  (`PartlyAdmittedExample`). It does exactly when a check refused it or the first child's key was
  already live (`RefusedSplitKeepsLive`).

## Model

| member | source | states |
|---|---|---|
| KeyOrder.SortedKeys | src/resumable_batch/stores/base.py:355-357 | sorting lists every requested key once, each in code-point order before the next, the order spelled out as in AtMostIsInOrder |
| KeyOrder.SortedKeysUnique | src/resumable_batch/stores/base.py:355-357 | that order determines the list: any ascending listing of the same keys is the same one |
| KeyOrder.AtMostIsInOrder | src/resumable_batch/stores/base.py:355-357 | the order: one string comes at or before another iff it is a prefix of it or has the smaller character where they first differ |
| KeyOrder.SortedExample | src/resumable_batch/stores/base.py:355-357 | b and a are listed as a, b |
| Utf8.DecodeUndoesEncode | src/resumable_batch/stores/jsonl.py:53-67 | what is written as UTF-8 is decoded to the same text |
| Utf8.DecodeIsStrict | src/resumable_batch/stores/jsonl.py:60-67 | bytes are read as a text iff they are that text encoded: nothing overlong, torn or surrogate is |
| Spelling.BytesExample | src/resumable_batch/stores/jsonl.py:53-67 | one character of each length, and its bytes |
| JsonRoundTrip.LoadsUndoesRender | src/resumable_batch/stores/jsonl.py:26-31 | reading back a canonically printed value gives the value, nested values, control characters and escapes included, in both ASCII modes |
| JsonRoundTrip.RenderInjective | src/resumable_batch/stores/jsonl.py:26-31 | the canonical rendering of two different values differs |
| JsonGrammar.LoadsIsGrammar | src/resumable_batch/stores/base.py:144-150 | a text is read as a value iff it is a sentence of the grammar of RFC 8259 for that value, with any spaces, escapes, member order and repeated keys |
| JsonGrammar.HexValueIs | src/resumable_batch/stores/jsonl.py:74-91 | hexadecimal digits are read in either case |
| Spelling.PlainCharacters | src/resumable_batch/stores/jsonl.py:26-31 | every character from the space on but the quote and the backslash is written as itself, with ASCII escapes only up to the tilde |
| Spelling.ShortEscapes | src/resumable_batch/stores/jsonl.py:26-31 | the seven characters that have a short escape, and which |
| Spelling.CodeEscapes | src/resumable_batch/stores/base.py:197-205 | every other control character, and in the manifest every other character of the basic plane, is written as its four lower-case hexadecimal digits |
| Spelling.PairEscapes | src/resumable_batch/stores/base.py:197-205 | in the manifest a character beyond the basic plane is written as its surrogate pair |
| Spelling.RenderTwo | src/resumable_batch/stores/jsonl.py:26-31 | members are written in ascending key order, without spaces, whichever way round they were put in |
| Spelling.RenderNone | src/resumable_batch/stores/jsonl.py:26-31 | the empty object and the empty array, as written |
| Spelling.RenderPair | src/resumable_batch/stores/jsonl.py:26-31 | elements are written in order, without spaces |
| Spelling.FileOfTwo | src/resumable_batch/stores/jsonl.py:50-58 | the file is the header line and one line per record, each ended by a newline |
| Spelling.HeaderIs | src/resumable_batch/stores/jsonl.py:50-58 | the header is an object whose one member holds the identity block |
| Spelling.ManifestIs | src/resumable_batch/stores/base.py:197-205 | the manifest is one object: entries, fingerprint, schema version 2, in this order, in ASCII |
| Spelling.TmpNamesAre | src/resumable_batch/stores/base.py:190-195 | a name is temporary iff .tmp. occurs in it |
| Spelling.NameExamples | src/resumable_batch/stores/jsonl.py:34-35 | the file names of a key and of the manifest, and a temporary name, spelled out |
| Jsonl.WriteFile | src/resumable_batch/stores/jsonl.py:50-58 | the writing loop produces the header line and one line per record |
| Jsonl.ReadFile | src/resumable_batch/stores/jsonl.py:60-91 | the reader decides exactly as specified which files are readable and what they hold |
| Jsonl.ReadRecordLines | src/resumable_batch/stores/jsonl.py:83-91 | the appending loop skips blank lines and gives up at the first line that is not JSON |
| JsonlRoundTrip.ReadUndoesWrite | src/resumable_batch/stores/jsonl.py:50-91 | reading a written file gives back equal records and an equal meta map, for every record list and string-valued meta |
| JsonlRoundTrip.LinesAre | src/resumable_batch/stores/jsonl.py:60-72 | read lines end at a newline, a carriage return, or both, and nowhere else |
| JsonlRoundTrip.CanonicalInjective | src/resumable_batch/stores/jsonl.py:26-31 | equal digest scopes mean equal record lists: nothing dropped, truncated, reordered or altered |
| Manifest.ManifestRoundTrip | src/resumable_batch/stores/base.py:144-205 | a written manifest is accepted by exactly its own fingerprint and then gives back exactly the entries written |
| Manifest.AllOrNothing | src/resumable_batch/stores/base.py:144-180 | whatever bytes the manifest file holds: rejected whole iff they are not UTF-8, not one JSON document, not an object, or an object with another fingerprint, another schema version, no table of entries, or an entry under an unsafe key, that is no object, or whose payload_hash, generation_id or result_digest is no string; otherwise accepted with every entry as it stands |
| Manifest.SpellingDoesNotMatter | src/resumable_batch/stores/base.py:144-180 | the same JSON object written in any way the grammar allows (spaces, member order, escapes) is treated like its canonical form |
| Manifest.TornManifestIsRejected | src/resumable_batch/stores/base.py:144-164 | what the store wrote, cut off after any number of bytes, is accepted by no fingerprint; uncut, by its own |
| JsonPrefix.CutObject | src/resumable_batch/stores/base.py:144-150 | a printed object cut short anywhere is no JSON document |
| Manifest.SafeKeys | src/resumable_batch/stores/base.py:30-44 | a key is safe iff it starts with an ASCII letter or digit and goes on with those, dots, underscores and hyphens; so it holds no separator and is no dot name |
| Manifest.SafeKeyExamples | src/resumable_batch/stores/base.py:30-44 | a safe key, and nine that are not |
| Store.ViewAnswersProbes | src/resumable_batch/stores/base.py:274-308 | has and load agree with one map from key to verified result: a hit iff the map holds the key under the asked hash, a collision if it holds it under another |
| Store.FreshMeansCommitted | src/resumable_batch/stores/base.py:223-264 | a file verifies iff the validator accepts each of its records and header and entry are exactly what a commit of them, under the probed key, hash and fingerprint and the entry's generation, leaves behind; it collides iff it carries another payload hash |
| Store.RaisesIff | src/resumable_batch/stores/base.py:274-289 | has raises iff the manifest has the key and gives it another payload hash, or the key is unsafe, or its file reads back with another payload hash; so a missing entry, and a missing, unreadable or stale file, are misses |
| Store.EntryAgrees | src/resumable_batch/stores/base.py:314-340 | the manifest entry says field by field what the header in the payload file says, key and fingerprint aside |
| Store.StageEffect | src/resumable_batch/stores/base.py:326-347 | which of the files that matter each micro-step of a commit changes |
| Store.OwnPayload | src/resumable_batch/stores/base.py:223-264 | a payload file next to the entry of its own commit verifies, unless the asked hash differs or the validator refuses |
| Store.ForeignPayload | src/resumable_batch/stores/base.py:253-259 | a payload file of one commit never verifies against the entry of another generation |
| Store.OpenIsStable | src/resumable_batch/stores/base.py:97-100 | opening twice finds what opening once found |
| StoreTheorems.CommitFrame | src/resumable_batch/stores/base.py:310-353 | a commit changes no answer about any other key, however far it got |
| StoreTheorems.CommitView | src/resumable_batch/stores/base.py:310-353 | a commit that returns replaces one answer; one that raises can lose that one answer and no other |
| StoreTheorems.CommitThenProbe | src/resumable_batch/stores/base.py:243-244 | after a commit, has is True iff the record validator accepts what was committed |
| StoreTheorems.RejectedCommitExample | src/resumable_batch/stores/base.py:310-329 | a concrete commit that succeeds and is never answered for |
| StoreTheorems.ReopenKeepsHit | src/resumable_batch/stores/base.py:190-195 | a hit survives every possible reopening iff its payload file is not named like a temporary file |
| StoreTheorems.SweptKeyExample | src/resumable_batch/stores/base.py:190-195 | a result committed under the safe key a.tmp.b is answered for, and gone after an opening that the store may perform |
| StoreTheorems.TmpNamedCommitIsLost | src/resumable_batch/stores/base.py:190-195 | so is any result committed under a safe key whose file name contains .tmp. |
| StoreTheorems.OpeningKeepsDurable | src/resumable_batch/stores/base.py:76-100 | an opening neither loses nor adds a result under a name that is not temporary, and shows all of them |
| StoreTheorems.ReopenedAfterCommit | src/resumable_batch/stores/base.py:341-353 | what the manifest answers for after a commit equals what memory answers for, except after a commit that raised with its manifest in place: then the manifest has its result and memory does not |
| StoreTheorems.ReopenedViewIsLive | src/resumable_batch/stores/base.py:76-100 | every opening shows what memory shows iff the manifest on disk answers for the same results and none of them is under a temporary name |
| StoreTheorems.HexKeysAreSafe | src/resumable_batch/stores/base.py:30-44 | hex-digest keys can name a file and are never swept |
| StoreTheorems.CrashFrame | src/resumable_batch/stores/base.py:326-347 | a crash at any micro-step of a commit, begun with any entries in memory and any manifest on disk, and a reopening: other keys answer as the manifest in place has it; the committed key answers as before, misses, or answers the new result, according to the renames that happened |
| StoreTheorems.RejectedManifestEmptiesCache | src/resumable_batch/stores/base.py:144-164 | any manifest file that does not load, or none, empties the cache: every has is False, and the next opening finds an empty cache too |
| StoreTheorems.TornManifestEmptiesCache | src/resumable_batch/stores/base.py:144-164 | a manifest torn at any byte never vouches for a part of what it listed |
| StoreTheorems.CommitStaysBacked | src/resumable_batch/stores/base.py:341-353 | whatever fails, the disk's manifest vouches for everything memory answers; after a success memory equals the parsed manifest |
| StoreTheorems.OpenIsBacked | src/resumable_batch/stores/base.py:144-165 | so it does after opening |
| StoreTheorems.MemoryNeverOverclaims | src/resumable_batch/stores/base.py:341-353 | what the live instance answers, a fresh opening of the same disk answers with the same result |
| StoreTheorems.HitIsComplete | src/resumable_batch/stores/base.py:245-264 | with a collision-free digest a hit returns the committed records whatever bytes the payload file holds |
| StoreHistory.HistoryKeeps | src/resumable_batch/stores/base.py:144-353 | over every history, every manifest entry on disk or in memory and every payload file belongs to a logged commit |
| StoreHistory.HitIsVouchedFor | src/resumable_batch/stores/base.py:223-308 | over every history of commits, crashes, reopenings and lost, reverted or torn files, a hit belongs to one commit under the asked key, hash and fingerprint whose entry the loaded manifest holds, that commit wrote the payload file, and the result is the one it committed |
| StoreHistory.MemoryIsManifest | src/resumable_batch/stores/base.py:341-353 | over every history in which only the store writes the manifest, memory equals the manifest iff the last manifest put in place was not that of a commit that raised |
| StoreObject.Disk.WriteAtomically | src/resumable_batch/durability.py:55-67 | write to a temporary name, fsync, replace, fsync the directory: on success the new content is in place, the temporary file gone and every other file as it was; at every moment the final file holds its old or its new content; it reports failure iff one of the operations raised, and which one says how far it got |
| StoreObject.JsonlStore.Initialise | src/resumable_batch/stores/base.py:76-100 | refuses for the lock iff it is not held, for the fingerprint iff that is empty, and then touches nothing; fails only if the manifest does not load and an operation of the disk raised; otherwise ends with exactly the entries the manifest vouches for |
| StoreObject.JsonlStore.LoadOrInvalidateManifest | src/resumable_batch/stores/base.py:144-165 | loads all entries, or deletes files and starts an empty manifest; fails iff an operation of the disk raised, and never if the manifest loads |
| StoreObject.JsonlStore.WipeTree | src/resumable_batch/stores/base.py:182-188 | tries to delete every file there is and nothing else; the ones that stay are those whose deletion failed, unchanged |
| StoreObject.JsonlStore.SweepOrphanTmps | src/resumable_batch/stores/base.py:190-195 | tries to delete exactly the files named like temporary files; those that stay are the ones whose deletion failed, and no other file is touched |
| StoreObject.JsonlStore.WriteManifest | src/resumable_batch/stores/base.py:197-205 | replaces the manifest atomically by one that holds the current entries, or fails because an operation of the disk raised |
| StoreObject.JsonlStore.Has | src/resumable_batch/stores/base.py:274-289 | a hit iff the verified view holds the key under the asked hash |
| StoreObject.JsonlStore.Load | src/resumable_batch/stores/base.py:291-308 | returns the verified result, and refuses everything that is not a hit for the reason the probe finds |
| StoreObject.JsonlStore.LoadAll | src/resumable_batch/stores/base.py:355-363 | one result for every requested key, in ascending key order; or, iff one of them is not answered for, the refusal of the first such key |
| StoreObject.JsonlStore.Commit | src/resumable_batch/stores/base.py:310-353 | refuses an unsafe key and nothing else; raises otherwise iff an operation of the disk did; passes only through the micro-steps of a commit, publishes in memory only after the manifest, rolls back on failure, and changes the view at one key only |
| Backoff.CappedGrows | src/resumable_batch/engine.py:48-54 | the un-jittered delay never shrinks from one attempt to a later one and never exceeds the cap |
| Backoff.CappedStarts | src/resumable_batch/engine.py:48-54 | the first un-jittered delay is the base delay, or the cap if that is smaller |
| Backoff.CappedMultiplies | src/resumable_batch/engine.py:48-54 | each further one is the multiplier times the one before, or the cap if that is smaller |
| Backoff.CapIsReached | src/resumable_batch/engine.py:48-54 | with a positive base and a multiplier above 1 the cap is reached after finitely many attempts and kept |
| Backoff.JitterStaysInRange | src/resumable_batch/engine.py:48-54 | the jittered delay is the capped one times the draw, and so within capped * (1 +- jitter) |
| Backoff.JitterExceedsCapExample | src/resumable_batch/engine.py:48-54 | an input on which the jittered delay exceeds max_delay |
| Backoff.CapHoldsIff | src/resumable_batch/engine.py:48-54 | max_delay bounds every jittered delay of an attempt iff capped * (1 + jitter) does not exceed it |
| Scheduler.Classify | src/resumable_batch/engine.py:173-225 | split iff the policy wants it; a retry only of a transient exception that is no OOM; what is neither split nor OOM is fatal only if it is not transient |
| Conservation.AdmissionFacts | src/resumable_batch/engine.py:107-127 | admitting a list that goes through registers exactly the new keys, pairwise distinct and all unseen |
| Conservation.ReachableConserved | src/resumable_batch/engine.py:104-171 | in every reachable state the terminal keys are the disjoint union of ready, delayed, in flight, resumed and committed, each once, with the hashes of live_map |
| Accounting.ReachableCounts | src/resumable_batch/engine.py:129-134 | attempts = committed + splits + retries + in flight, and pending plus settled = roots + sum of (children - 1); at most max_workers in flight |
| Accounting.StepCounts | src/resumable_batch/engine.py:267-278 | a failure that makes the run raise is the one execution the counters do not cover |
| Accounting.FinishedExactlyOnce | src/resumable_batch/engine.py:244-307 | on a normal end each terminal key was resumed or committed exactly once, and the counters add up |
| Accounting.NeverStuck | src/resumable_batch/engine.py:244-286 | in any state with work left and no exception pending, a future can finish, or an item can be dispatched, or a delayed item can mature |
| Counters.CountersCount | src/resumable_batch/engine.py:318-325 | in every reachable state each counter is the number of events of its kind in the run so far |
| Counters.WorkersAreBounded | src/resumable_batch/engine.py:102 | at most max(1, concurrency) futures are in flight |
| Counters.FailureEnds | src/resumable_batch/engine.py:142-226 | which exception a failure ends the run with, if any: a wanted split only with the reason it is refused for (depth cap, no children, not shrinking, key collision), an OOM that is not split and whatever is not transient with that very exception, a transient failure with that very exception at the last attempt and with a RetryAfterError if the server asks for too much |
| Retries.RunsAreBounded | src/resumable_batch/engine.py:198-222 | each key is submitted for execution at most max(1, max_attempts) times in a run |
| Timing.PromotesExactlyMatured | src/resumable_batch/engine.py:136-140 | promotion moves exactly the entries with ready_at <= now |
| Timing.PromotesInOrder | src/resumable_batch/engine.py:136-140 | promoted items join the ready queue by ready_at and, where that is equal, in the order they were delayed, behind what is there, leaving only strictly later ones |
| Timing.ReachableOnTime | src/resumable_batch/engine.py:136-140 | the delayed queue is always in (ready_at, seq) order and nothing ready or running is ahead of its time |
| Timing.NeverDispatchedEarly | src/resumable_batch/engine.py:198-219 | no key is dispatched again before its failure time plus the backoff for that many failures, nor before its failure time plus the accepted server hint |
| Timing.RetryIsScheduled | src/resumable_batch/engine.py:198-219 | a transient failure that does not end the run delays its item by exactly the larger of what the server asks for and the draw times min(max_delay, base_delay * multiplier^(n-1)), the powers given by their recurrence |
| Timing.TotalWaitIsBounded | src/resumable_batch/engine.py:198-219 | the delays scheduled for one key over a run add up to at most (max_attempts - 1) * max(max_delay * (1 + jitter), max_server_delay), for any policy the constructor lets through |
| Termination.StepDescends | src/resumable_batch/engine.py:142-226 | every completion lowers the vector of remaining tries by split depth lexicographically; other steps leave it |
| Termination.DescentEnds | src/resumable_batch/engine.py:142-226 | vectors of one length that never rise lexicographically come to rest |
| Termination.FinitelyManyExecutions | src/resumable_batch/engine.py:142-286 | no endless run performs infinitely many executions, however many children splits create |
| Termination.EndlessRunsOnlyWait | src/resumable_batch/engine.py:244-286 | an endless run contains finitely many dispatches, completions and failures: from some point on it does nothing but read the clock |
| Termination.FairRunsEnd | src/resumable_batch/engine.py:244-286 | if running futures finish, free workers are given what is ready and the clock passes every due time, every run comes to all three queues empty or an exception, and stays there |
| TotalCorrectness.FairRunsReturnOrRaise | src/resumable_batch/engine.py:244-314 | in such an environment every run over a sound cache ends with an exception or with the reference output |
| Frontier.SplitGoesThrough | src/resumable_batch/engine.py:142-171 | a split goes through iff depth, children, sizes and keys allow it; a refused one leaves leaves, hashes and queue unchanged |
| Frontier.NonShrinkingExample | src/resumable_batch/engine.py:152-161 | an input on which a child larger than its parent is admitted |
| Frontier.RefusedSplitKeepsLive | src/resumable_batch/engine.py:162-166 | a refused split leaves live_map as it was iff a check refused it or the first child's key was already live |
| Frontier.PartlyAdmittedExample | src/resumable_batch/engine.py:107-115 | an input on which the first of two children with one key stays registered after the run has raised |
| Frontier.LeavesWeighWhatRootsDid | src/resumable_batch/engine.py:142-171 | whatever splits share out among children, the current leaves share out what the roots had |
| Frontier.LeavesPartitionMembers | src/resumable_batch/engine.py:142-171 | if split partitions the parent's members, then in every reachable state a member of one root is in exactly one leaf, and a member of no root is in none |
| Frontier.LeavesCoverRoots | src/resumable_batch/engine.py:142-171 | every root has a leaf below it or is one, and split parents are live keys that are no leaves |
| Frontier.NoLeafIsAnAncestor | src/resumable_batch/engine.py:162-171 | no leaf lies above any other key, so an old child and a later parent are never stitched together |
| Transparency.LeavesStay | src/resumable_batch/engine.py:142-286 | in every reachable state the leaves below the frontier are the leaves below the roots |
| Transparency.ReachableTracks | src/resumable_batch/engine.py:246-278 | the cache differs from the initial one only at committed leaves, which it holds with their results |
| Transparency.RunIsTransparent | src/resumable_batch/engine.py:244-314 | a run that gets to its end stitches exactly the leaves of the recursively defined split tree, in ascending key order, with the results of a sequential uncached evaluation; the store can answer iff its validator accepts what this run committed |
| Transparency.SchedulesAgree | src/resumable_batch/engine.py:244-314 | runs under any concurrency, completion order, retry pattern and sound cache agree on terminal keys and output |
| Resume.RunExtends | src/resumable_batch/engine.py:244-303 | a run, failed or not, adds to the cache exactly the commits whose results the validator accepts, and commits no key twice |
| Resume.RunRetains | src/resumable_batch/engine.py:244-303 | a run, failed or not and whatever the validator thinks of its results, keeps every cached entry and commits only what was missing |
| Resume.RunKeepsSound | src/resumable_batch/engine.py:244-303 | a sound cache is sound after any run |
| Resume.NothingIsCommittedTwice | src/resumable_batch/engine.py:244-303 | over any sequence of runs over one open store the cache is the initial one plus the commits the validator accepts, none of them made twice; whatever was committed is a leaf |
| Resume.FailuresThenSuccess | src/resumable_batch/engine.py:244-303 | after any failed runs over one open store and a successful one each accepted leaf not cached before was committed exactly once in total, and the output is the reference one |
| Resume.RunningAgainRepeats | src/resumable_batch/engine.py:246-254 | if every leaf is accepted, running again after a success on any sound cache that still answers for the leaves commits nothing, resumes every leaf, executes only items that split again or fail transiently, and returns the same output |
| Ledger.BooksBalance | src/resumable_batch/engine.py:276-278 | in every state a run over a freshly opened store reaches, the scheduler's cache is the store's live view, and the manifest answers for the same plus at most the one result whose commit raised too late |
| Sessions.NothingLandsTwice | src/resumable_batch/engine.py:244-303 | over any sequence of sessions, failed, killed or finished, each reopening the store: nothing durable is lost, the disk ends up answering for what it answered for at first plus the accepted results that landed, and none of those lands twice |
| Sessions.FailuresThenSuccess | src/resumable_batch/engine.py:244-303 | after any such sessions and one that finishes, each accepted leaf not durable before has landed exactly once and its commit has returned exactly once, or never if it raised with its manifest in place; the output is the reference one |
| Sessions.ExactlyOnceIff | src/resumable_batch/stores/base.py:341-353 | over such sessions every new accepted leaf was committed by exactly one call that returned iff no commit of an accepted result raised with its manifest in place |
| Sessions.LandsAgainIff | src/resumable_batch/stores/base.py:243-244 | a leaf that has landed lands again in a later session only if the validator refuses its result, and then in every later session that finishes |
| Sessions.RunningAgainRepeatsReopened | src/resumable_batch/engine.py:246-254 | if every leaf is accepted, reopening the store after a finished session and running again commits nothing, resumes every leaf and returns the same output |
| LateCommit.ReturnedByNobody | src/resumable_batch/stores/base.py:341-353 | two sessions, possible for every item that yields an acceptable result: the first raises after its manifest is in place, the second finishes; the leaf has landed once and no commit has returned |
| Campaign.SessionInHistory | src/resumable_batch/stores/base.py:310-353 | whatever the disk went through before, a session is a possible stretch of a store history that ends with the books of its run, and all it commits is what items of that identity yield |
| Campaign.EverySessionStitches | src/resumable_batch/engine.py:244-314 | over sessions interleaved with lost, reverted, torn and, if the digest is collision-free, overwritten files, every session that finishes stitches the reference output, out of a cache that is what its store answers for |
| Composition.SurvivorsAreSound | src/resumable_batch/stores/base.py:223-353 | a store that went through any history answers only what the items yield |
| Composition.RunAfterAnyHistory | src/resumable_batch/engine.py:244-314 | a run over such a store stitches the reference output |
| Engine.Run.AdmitItem | src/resumable_batch/engine.py:107-115 | refuses a live key, registers any other with its hash |
| Engine.Run.AdmitItems | src/resumable_batch/engine.py:164 | admits the list up to the first live key |
| Engine.Run.AddLeaves | src/resumable_batch/engine.py:167-170 | the loop adds exactly the children to terminal_keys, terminal_hash and ready |
| Engine.Run.AdmitRoots | src/resumable_batch/engine.py:123-127 | the run starts in the scheduler's start state, or raises on a duplicate root |
| Engine.Run.CheckSplit | src/resumable_batch/engine.py:147-161 | finds the fault the split must be refused for, in the code's order |
| Engine.Run.HandleSplit | src/resumable_batch/engine.py:142-171 | the whole new state is that of the scheduler's split |
| Engine.Run.DelayRetry | src/resumable_batch/engine.py:198-222 | the whole new state is that of the scheduler's retry, whose delay RetryIsScheduled spells out |
| Engine.Run.RouteException | src/resumable_batch/engine.py:173-225 | OOM before domain split before transient before fatal, with the whole new state |
| Engine.Run.AskStore | src/resumable_batch/engine.py:246-251 | has as the dispatcher sees it: a hit iff the cache answers for the item; an exception iff the manifest has the key with another payload hash, or the key is unsafe, or its file carries another payload hash; a miss in every other case |
| Engine.Run.CommitToStore | src/resumable_batch/stores/base.py:310-353 | what the commit did to cache, entries and files is one of the writes the ledger is made of; it raises for a safe key iff an operation of the disk did |
| Engine.Run.CommitResult | src/resumable_batch/engine.py:276-278 | the result is committed and counted, or the store's exception, behind which there is an unsafe key or an operation of the disk that raised, ends the run |
| Engine.Run.DispatchNext | src/resumable_batch/engine.py:246-254 | one dispatch event of the scheduler, which raises iff the store refuses the key |
| Engine.Run.DispatchReady | src/resumable_batch/engine.py:246-254 | dispatches and nothing else, until something raises, nothing is ready, or as many futures are in flight as the concurrency asked for, and at least one |
| Engine.Run.Finished | src/resumable_batch/engine.py:267-278 | one finish event of the scheduler, its exception accounted for |
| Engine.Run.Failed | src/resumable_batch/engine.py:267-275 | one failure event of the scheduler |
| Engine.Run.CompleteAll | src/resumable_batch/engine.py:267-278 | the finished futures are handled in order, up to the first that makes the run raise |
| Engine.Run.PromoteMatured | src/resumable_batch/engine.py:136-140 | one promotion event: the popping loop moves exactly the matured entries, in heap order |
| Engine.Run.MainLoop | src/resumable_batch/engine.py:244-286 | one scheduler turn per round of the environment; it ends early only with an exception or with all three queues empty |
| Checkpointed.CheckModes | src/resumable_batch/engine.py:91-98 | accepts exactly one complete combine mode |
| Checkpointed.FoldResults | src/resumable_batch/engine.py:310-314 | loads the results in ascending key order and folds one at a time: the chain of accumulators starts at initial, each next one is reduce of the one before and the next result, and the last is returned |
| Checkpointed.Stitch | src/resumable_batch/engine.py:305-314 | combine of the list of results in ascending key order, or finalize of their fold; a refusal iff the store does not answer for all terminal keys |
| Checkpointed.RunCheckpointed | src/resumable_batch/engine.py:61-325 | a call follows the scheduler from the state its arguments and store give, and returns, raises or waits as that state says; if the store's exception ended it, its last event is a lookup of a key the store refuses, or a commit of an unsafe key or one in which an operation of the disk raised, and else no such operation did; over a store without entries no lookup raises before a commit was tried |
| Checkpointed.CallIsTransparent | src/resumable_batch/engine.py:300-325 | a call that returns, returns combine of the list, in ascending key order, of what the leaf of each key yields in a sequential uncached evaluation, or finalize of the fold of that list from initial; each counter is the number of the events it is named after, and they add up |
| Checkpointed.SomeRunFinishes | src/resumable_batch/engine.py:244-286 | the hypotheses of the statements about finished runs are met by a run of any single item that yields |

## Left out

- Floating-point JSON numbers, lone surrogates and non-string object keys: the value type has none; the reader treats them as unreadable.
- `committed_at` in manifest entries: a timestamp nothing reads, and a float.
- The Parquet store: its meaning lies in pandas and pyarrow.
- Lock acquisition, the filesystem policy and fsync's durability guarantee: operating-system behaviour; the weak-disk histories cover a disk without it.
- The thread pool, worker setup and teardown, cancellation, sleeping and wait timeouts: the environment chooses which futures are done in each round and what the clock reads.
- Executing `execute` itself: its result or exception arrives with the completion.
- `cleanup` and `cleanup_on_success`, logging, `cached_keys`.
- The internals of heapq: the delayed heap is kept as the sequence in which it would be popped.
- `load_all` on a set of keys: the orchestrator passes a map.
- Float rounding and overflow in delays: delays are reals.
- Reads that fail: a file that cannot be read is one that is not there, as the code treats it.
- How often a result is committed on a disk that loses or alters files between sessions: `Campaign` says what is returned there, `Sessions` counts commits on an intact disk.
- Engine.Run.MainLoop: plays a finite sequence of environment rounds, because an environment that never finishes a future keeps the real loop waiting forever; FinitelyManyExecutions covers endless runs, FairRunsEnd those in which the environment does its part.
- StoreObject.Disk.Write: a failed write may leave any bytes under the temporary name.
