# BeforeDone, verified

BeforeDone records what coding agents do in a repository, runs the checks a
project requires, and keeps an agent from finishing before there is fresh
evidence that they pass. This project models its core in Dafny and proves what
that core is for.

**The event ledger.** Writers hold an exclusive lock, clear leftover temporary
files, recover, commit one immutable segment per batch, link one claim per event
ID and replace a small state file. Readers take no lock. `LedgerProtocol` has the
store as segments, claims, state and the pre-v1 file, its single file operations,
the invariant of every reachable store and the plan a writer still has to carry
out. `LedgerRuns` runs any number of writers that are killed between any two
operations. `Directories`, `Recovery`, `EventStore` and `EventReader` are the same
store as named directory entries with the source's methods on them; every
operation there may fail before or after it took effect, and a kill leaves the
same files behind as a failure. `Jsonl` and `SegmentNames` are the formats.
`Sanitize` bounds events before they are stored.

**Evidence.** `Glob`, `Preimage`, `Fingerprint` and `FingerprintMemo` compute
the fingerprint of a check's relevant files; `Receipts`, `Checker` and `Gate` sign,
judge and fold the evidence; `Freshness` is a state machine over file edits,
configuration edits, concurrent checks that may crash, aliases and logs changed
from outside, and gates.

**Incidents and replays.** `Divergence` locates the first observable divergence,
`Replay` checks and verifies cases.

**Adapters.** `DeepSeek` is the session queue with its flush chain, the
one-steering rule and the disposal of the session; `Delivery` joins such a session
with the ledger its flushes write to, beside any other writers. `PiGuard` is the
durable guard of the Pi extension over restarts, failed saves and forks.

**Redaction.** `Redact` finds sensitive names, also when they are written with
escapes or broken up by control characters, the end of what is assigned to them,
and rewrites the text.

## How to read it

- Loops and objects that change are methods and classes; what they compute is
  stated by specification functions and proved about those. Code that only
  computes a value is a function.
- Foreign functions (JSON, SHA-256, HMAC, UTF-8, path cleaning, Unicode tables)
  are fields of small datatypes that are passed around. What is assumed of them is
  written in one predicate each: `Faithful` and the preconditions of `JsonlLaws`,
  `CollisionFree`, `HashesPrint`, `SignerOk`, `ToolsOk`, `PolicyOk`. Injective claim names
  (`KeysInjective`) are assumed only where success of a writer is stated, never for
  safety. Digests and signatures are idealised as free of collisions where the
  meaning of equal fingerprints or of a verifying signature is stated.
- Strings are byte strings, one `char` per byte, in `Jsonl`, `SegmentNames`,
  `Preimage`, `Sanitize` and `Redact`, and sequences of Unicode characters in `Glob`
  and `Fingerprint`; there the length prefix counts the bytes of an injective
  encoding. Times are integers and 0 is the zero time.
- A context may expire at every place where the source looks at it
  (`Deadline.Context`), so a statement about an expired context holds for every
  moment of expiry, also in the middle of a fingerprint or a log hash.
- Random identifiers (prompt IDs) are numbers that never repeat.

## Where the code differs from what one would expect

- An empty pre-v1 `events.jsonl` is accepted by writers, but as soon as a segment
  exists every read fails, because its size cannot match the first segment
  (`internal/hooks/event_store.go:179`). `EventReader.QuietRead` gives the exact
  condition for a read to succeed, `EventReader.EmptyLegacyBlocksReads` the case.
  For the same reason reads fail between an interrupted import and the next writer.
- An append that reports an error may still have committed its batch, because the
  hard link comes before the last file operations. `AppendBatch` therefore promises
  all or nothing, and the whole batch only on success; after an error the batch is
  in the log exactly when its link follows the plan of recovery in the trace
  (`Recovery.Committed`). `LedgerRuns.FailedYetCommitted` is such a run.
- An adapter whose reply gets lost that way sends the same IDs again, and the ledger
  refuses them for good: `Delivery.UnseenCommitWedges` and `Delivery.WedgedForever`
  show that nothing is acknowledged and no stop accepted from then on,
  `Delivery.SucceedsExactly` when a flush can succeed at all.
- Without required checks the gate passes and the incident is inconclusive
  (`Gate.NoRequiredChecks`, `Gate.AssessReceipts`).
- The memo key of a gate's fingerprints is injective on validated pattern lists
  only (`FingerprintMemo.KeyInjective`, `FingerprintMemo.UnvalidatedKeysCollide`).
- The state of a DeepSeek session is dropped when its final flush has settled, also
  when that flush failed (`DeepSeek.LostToFailedFlush`) or when it succeeded but an
  event arrived meanwhile (`DeepSeek.LostWhileFlushing`). With the final flush as the
  last one asked for, nothing is lost exactly when it was acknowledged and nothing
  was enqueued between its start and the drop (`DeepSeek.FinalFlushDecides`). A later
  flush that was asked for before the drop still runs and can save such events
  (`DeepSeek.LaterFlushSaves`), so in general the last flush of the chain decides
  (`DeepSeek.NothingLostExactly`).
- Pi sends at most one corrective message per prompt along a branch that only grows
  (`PiGuard.OneCorrectionPerPrompt`), but not across forks
  (`PiGuard.SecondMessageAfterFork`): a corrected prompt can be corrected again after
  a fork exactly when the state saved last before the fork's place shows it
  uncorrected (`PiGuard.CorrectedAgainExactly`).
- When a check starts and finishes at the same instant and an event has that very
  time, no window is reported although events enclose the run on both sides
  (`Divergence.SameInstantHasNoWindow`); `Divergence.WindowExists` gives the exact
  condition.

## Model

| member | source | states |
|---|---|---|
| Jsonl.ReadEventJsonl | internal/hooks/event_store.go:669-716 | The scanner loop accepts a file exactly when it is small enough, ends with a newline, and every line is short enough, decodable, valid and new in its ID; it returns those events in order |
| Jsonl.EncodeBatch | internal/hooks/event_store.go:71-90 | The writer's encoding loop succeeds exactly for batches of valid events with distinct IDs that fit the ledger, and then yields one newline-terminated record per event |
| Jsonl.ValidateEvent | internal/hooks/codex.go:250-276 | The tests one after the other accept exactly the events within every limit of the durable contract |
| Jsonl.BatchRoundTrip | internal/hooks/event_store.go:669-716 | Whatever the writer accepts, the reader returns unchanged |
| Jsonl.LinesOfBatch | internal/hooks/event_store.go:84-86 | Splitting a batch at newlines gives one line per event, each the event's own encoding |
| Jsonl.NoneSpreads | internal/hooks/event_store.go:699-711 | One bad line makes the whole file unreadable, never a shorter log |
| SegmentNames.NameRoundTrip | internal/hooks/event_store.go:557-574 | A segment name parses back to its sequence, event count, size and digest |
| SegmentNames.ParseEventSegmentName | internal/hooks/event_store.go:561-574 | Parsing accepts exactly the names with four parts of the right widths that are positive numbers in range and a digest |
| SegmentNames.NamesSortBySequence | internal/hooks/event_store.go:557-559 | Names sort lexicographically as their sequence numbers do |
| SegmentNames.NameNotTemp | internal/hooks/event_store.go:900-904 | No segment name is taken for a temporary file |
| SegmentNames.ClaimNotTemp | internal/hooks/event_store.go:900-904 | No claim name is taken for a temporary file |
| LedgerProtocol.JsonlLaws | internal/hooks/event_store.go:669-716 | JSON Lines files meet every law the protocol relies on: distinct IDs, non-empty content, round trip, well-formed names |
| LedgerProtocol.ReconcileStep | internal/hooks/event_store.go:257-351 | After any single operation of recovery the invariant holds, the visible log is unchanged, and a fresh recovery would do exactly what is left |
| LedgerProtocol.ReconcileEnabled | internal/hooks/event_store.go:319-336 | With injective claim names the next operation of recovery can always be performed |
| LedgerProtocol.ImportStep | internal/hooks/event_store.go:273-281 | Importing the pre-v1 file as segment 1 leaves the visible log unchanged |
| LedgerProtocol.CommitStep | internal/hooks/event_store.go:121-124 | Committing an accepted batch to a recovered store appends exactly that batch to the log and keeps the invariant |
| LedgerProtocol.IndexIsRecovery | internal/hooks/event_store.go:125-134 | The claims and totals a writer adds after its commit are exactly what recovery would add |
| LedgerProtocol.Quiescent | internal/hooks/event_store.go:345-350 | When recovery has nothing left to do, every committed event has its claim and the saved totals are exact |
| LedgerProtocol.AcceptsExactly | internal/hooks/event_store.go:111-120 | After recovery a batch is accepted exactly when it fits the ledger and none of its IDs is committed |
| LedgerProtocol.OneSegmentPerId | internal/hooks/event_store.go:319-323 | An event ID occurs in one segment only |
| LedgerRuns.EveryRunSafe | internal/hooks/event_store.go:67-134 | Over every run of concurrent writers, kills and restarts the store is an append-only log: its start, then each committed batch once and whole, in commit order; every successful writer's batch is there |
| LedgerRuns.AppendNeverWedges | internal/hooks/event_store.go:95-134 | From every reachable state, a writer left alone succeeds exactly when its batch fits and repeats no committed ID, and then the log grew by exactly its batch |
| LedgerRuns.AnyoneCanStop | internal/hooks/event_store.go:67-134 | A writer that waits or holds the lock can be killed at any moment; that frees the lock and changes nothing on disk |
| LedgerRuns.FailedYetCommitted | internal/hooks/event_store.go:121-134 | A run in which the append reports an error and its whole batch is in the log |
| LedgerRuns.RunGrows | internal/hooks/event_store.go:136-141 | Segments are only ever added at the end, and the pre-v1 file never changes |
| LedgerRuns.MomentWith | internal/hooks/event_store.go:136-141 | Segments appear one at a time: every length between two moments was the length at some moment |
| Directories.ContiguousUnique | internal/hooks/event_store.go:221-255 | A directory whose sequence numbers are 1..n has one listing |
| Directories.CountIsExact | internal/hooks/event_store.go:338-344 | When there are as many claim files as indexed IDs, the claim files are exactly those of the IDs |
| Directories.KeysCount | internal/hooks/event_store.go:603-620 | Different IDs have different claim files, because a claim stores the ID it is for |
| Directories.NextNameFree | internal/hooks/event_store.go:531-543 | The name of the next segment is free |
| Directories.SegmentLinked | internal/hooks/event_store.go:531-543 | Linking the next segment's file shows the store with that segment added |
| Recovery.ReconciledStore | internal/hooks/event_store.go:301-350 | Contents that pass recovery's checks show a store that is intact, indexed exactly, and has exact totals |
| Recovery.RepairedIsQuiet | internal/hooks/event_store.go:257-351 | What recovery accepted is a reachable store with nothing left to do, if its pre-v1 file is the imported one |
| Recovery.NewIsHealthy | internal/hooks/event_store.go:391-429 | An unused repository, with or without a readable pre-v1 file, is a good start |
| Recovery.AcceptedWhenFits | internal/hooks/event_store.go:111-120 | The writer's size and claim checks decide exactly whether the batch fits |
| EventStore.ListSegments | internal/hooks/event_store.go:221-255 | Listing succeeds exactly when every entry is a temporary file or a well-named regular file of its stated size, and returns the committed segments once each, sorted |
| EventStore.ReadSegment | internal/hooks/event_store.go:353-362 | A segment is read exactly when it is valid and matches its name's count and digest |
| EventStore.CountClaims | internal/hooks/event_store.go:364-389 | Counting succeeds exactly when nothing else is in the claims directory |
| EventStore.CleanDirectory | internal/hooks/event_store.go:867-898 | Cleaning removes regular temporary files only, all of them on success, and refuses irregular ones |
| EventStore.CheckSegment | internal/hooks/event_store.go:301-318 | A listed segment passes exactly when its number, the running size and its content are right |
| EventStore.Ledger.constructor | internal/hooks/event_store.go:391-429 | A new ledger is a healthy empty store |
| EventStore.Ledger.CommitSegment | internal/hooks/event_store.go:531-543 | The segment's file is created whole or not at all, never over an existing name; a failure may come after the file was created |
| EventStore.Ledger.EnsureClaim | internal/hooks/event_store.go:622-638 | A claim is created whole or not at all, never changed; success means the directory names this ID and segment |
| EventStore.Ledger.SaveStateFile | internal/hooks/event_store.go:593-601 | The state is replaced whole or not at all |
| EventStore.Ledger.IndexEvents | internal/hooks/event_store.go:319-336 | On success all IDs are new and have their claims; on a healthy store only the planned claims were linked, and only a failed operation, a repeated ID or a collision stops it |
| EventStore.Ledger.IndexSegments | internal/hooks/event_store.go:301-337 | On success the segments are intact, numbered 1..n, without repeated IDs, and indexed; a healthy store only progresses along its plan |
| EventStore.Ledger.ListWithImport | internal/hooks/event_store.go:265-281 | On any directory contents a readable non-empty pre-v1 ledger becomes segment 1 exactly when there is no segment yet |
| EventStore.Ledger.LoadState | internal/hooks/event_store.go:258-264 | A saved state is used exactly when it is a regular file of this version whose numbers make sense |
| Recovery.FieldsAccepted | internal/hooks/event_store.go:284-299 | A pre-v1 file is accepted only if it is the one recorded at its import, or else the content of the first segment |
| EventStore.Ledger.ReconcileEventStore | internal/hooks/event_store.go:257-351 | On any directory contents success means that no operation failed, the saved state made sense, the pre-v1 file is the imported one, segments 1..n match their names, IDs are distinct, the claims are exactly the index and the totals are exact; on a healthy store recovery follows its plan, keeps the log, and fails only after a failed operation or a collision |
| EventStore.Ledger.CleanupTemps | internal/hooks/event_store.go:867-898 | Only regular temporary files are removed; success leaves no temporary file |
| EventStore.Ledger.CheckNewIds | internal/hooks/event_store.go:114-120 | A batch passes exactly when none of its IDs has a claim file |
| EventStore.Ledger.AppendBatch | internal/hooks/event_store.go:67-134 | Success means that no operation failed, adds exactly the batch at the end, and leaves nothing to recover and no temporary file; any failure adds all of it or nothing; without failed operations of its own or collisions it succeeds exactly when the batch is valid and fits, also after earlier failures |
| EventReader.ReadSegments | internal/hooks/event_store.go:185-210 | Reading succeeds exactly for segments numbered 1..n within the size limit, matching their names, without repeated IDs; the result is their events in order |
| EventReader.ReadEventStore | internal/hooks/event_store.go:142-211 | A read succeeds exactly when its listing is well formed, the pre-v1 file matches and every segment is readable, and returns the segments' events or the pre-v1 ones |
| EventReader.QuietRead | internal/hooks/event_store.go:155-184 | Without a running writer a read returns the log, and succeeds exactly when no pre-v1 file is in the way |
| EventReader.EmptyLegacyBlocksReads | internal/hooks/event_store.go:174-181 | The first batch committed beside an empty pre-v1 file makes reads fail |
| EventReader.SnapshotIsPrefix | internal/hooks/event_store.go:136-141 | A listing taken while segments are added is readable only if it is a prefix that includes what was there at its start |
| EventReader.ReadIsLinearizable | internal/hooks/event_store.go:136-211 | A lock-free read beside any writer steps returns the log as it was at one moment between its start and its end, or an error |
| Sanitize.Clean | internal/hooks/codex.go:311-326 | Cleaned text is at most the limit long and cut where a character starts |
| Sanitize.SanitizeAttributes | internal/hooks/codex.go:222-244 | Every attribute with a non-empty name is stored under its cleaned or hashed name, and a sensitive name's value is never kept |
| Sanitize.SanitizeEvent | internal/hooks/codex.go:208-246 | A sanitized event meets every field limit of the durable contract and keeps type, time and exit code |
| Glob.CompileGlob | internal/evidence/fingerprint.go:368-406 | The compile loop rejects exactly the invalid patterns and otherwise produces the pieces of the pattern, left to right |
| Glob.WhiteSpace | internal/evidence/fingerprint.go:369-371 | White space is that of Unicode, by code point |
| Glob.TrimCuts | internal/evidence/fingerprint.go:369-371 | Patterns are compared without the white space at both ends: all of it is cut off and nothing else |
| Glob.LiteralPrefix | internal/evidence/fingerprint.go:370-405 | Every match of a compiled pattern begins with the text before its first wildcard |
| Glob.PlainMatchesItself | internal/evidence/fingerprint.go:401-402 | A pattern without wildcards matches itself and nothing else |
| Glob.QuestionMark | internal/evidence/fingerprint.go:396-400 | A question mark stands for one character other than a slash |
| Glob.OneStar | internal/evidence/fingerprint.go:392-394 | One star stands for any text without a slash |
| Glob.TwoStars | internal/evidence/fingerprint.go:387-389 | Two stars stand for any text without a line break |
| Glob.DoubleStarSlash | internal/evidence/fingerprint.go:382-386 | Two stars and a slash stand for any number of directories, also none |
| Glob.SameDepth | internal/evidence/fingerprint.go:392-399 | Without two adjacent stars a match has exactly the pattern's directory depth |
| Glob.GitlinkTestIsSound | internal/evidence/fingerprint.go:266-281 | A pattern that matches a submodule or any path below it is always reported |
| Glob.PlainGitlinkTestIsExact | internal/evidence/fingerprint.go:275-278 | A pattern without wildcards is reported exactly when it matches the submodule or a path below it |
| Glob.WildcardGitlinkTest | internal/evidence/fingerprint.go:275-281 | A pattern with a wildcard is reported exactly when it matches the submodule itself or some path below the submodule begins with the text before the first wildcard |
| Glob.ValidIsNulFree | internal/evidence/fingerprint.go:369-377 | A valid pattern is not empty and has no NUL, also before trimming |
| Preimage.FieldRoundTrip | internal/evidence/fingerprint.go:355-357 | A length-prefixed field can be read back from the front of any stream |
| Preimage.StreamRoundTrip | internal/evidence/fingerprint.go:90-155 | The hashed stream is uniquely decodable: it gives back the patterns and each file's path, kind, executable bits, link target and digest |
| Preimage.StreamInjective | internal/evidence/fingerprint.go:90-155 | Equal streams mean equal patterns and equal records |
| Fingerprint.CompileAll | internal/evidence/fingerprint.go:44-51 | Compiling a list succeeds exactly when all its patterns are valid |
| Fingerprint.CollectGitFiles | internal/evidence/fingerprint.go:159-211 | The collected files are the matching listed paths, each once; the loop fails only when Git does, on expiry or beyond the byte and file limits |
| Fingerprint.CollectGitIndex | internal/evidence/fingerprint.go:213-264 | The index gives the stage-0 modes of matching paths and every submodule, or fails when Git does, on expiry or beyond the byte limit |
| Fingerprint.CheckGitlinks | internal/evidence/fingerprint.go:78-88 | The check passes only when no pattern may cover a submodule, and fails only then or on expiry |
| Fingerprint.WriteFiles | internal/evidence/fingerprint.go:94-155 | The stream holds the patterns and the record of every file; writing fails only on expiry, an unreadable file or too much content |
| Fingerprint.FingerprintContext | internal/evidence/fingerprint.go:43-157 | The result is the hash of the sorted relevant files' records, and there is one exactly when Git succeeds and the lists, submodules and files allow it, up to expiry; none is computed in a context that expired before |
| Fingerprint.RelevantMeans | internal/evidence/fingerprint.go:183-190 | A file is relevant exactly when Git lists it and some pattern of the list matches it |
| Fingerprint.IndexModesMean | internal/evidence/fingerprint.go:247-254 | The index mode recorded for a path is that of its last merged entry, and it is recorded exactly when some pattern matches the path |
| Fingerprint.AgreeingWorlds | internal/evidence/fingerprint.go:43-157 | Repositories that agree on the files matched by some pattern, on disk and in the index, have the same fingerprint |
| Fingerprint.EqualFingerprints | internal/evidence/fingerprint.go:43-157 | Equal fingerprints mean the same patterns, the same files matched by some of them, and each of these the same in kind, executable bits, link target and content |
| Fingerprint.SubmodulesStayOut | internal/evidence/fingerprint.go:266-281 | When there is a fingerprint, no pattern matches a submodule or a path below one |
| FingerprintMemo.KeyInjective | internal/evidence/validate.go:35 | Validated pattern lists have different memo keys |
| FingerprintMemo.UnvalidatedKeysCollide | internal/evidence/validate.go:35 | Without validation different lists can share a key |
| FingerprintMemo.FingerprintCache.Fingerprint | internal/evidence/validate.go:31-42 | A lookup answers what computing the fingerprint afresh would, is remembered and then repeated, and the memo stays right for all lists |
| FingerprintMemo.LookupAll | internal/evidence/validate.go:31-42 | With a live context any sequence of lookups returns exactly the uncached answers |
| Receipts.SignedVerifies | internal/evidence/store.go:53-97 | A signed receipt verifies, whatever its display fields say |
| Receipts.SignatureBindsContent | internal/evidence/store.go:71-97 | Two verifying receipts with one signature agree in everything the signature covers |
| Receipts.ValidateReceiptContract | internal/evidence/store.go:100-152 | The checks before signing and after reading accept exactly the receipts with valid names, command, times in order, digests, paths inside the repository, and an exit code that fits the verdict |
| Receipts.SignReceipt | internal/evidence/store.go:53-69 | A receipt is signed exactly when it meets the contract |
| Receipts.VerifyReceiptSignature | internal/evidence/store.go:71-98 | A signature verifies exactly when the contract holds and it is the MAC of the covered content |
| Checker.AssignVerdict | internal/checker/checker.go:74-101 | PASS exactly when the command exited 0 and the relevant files did not change, FAIL exactly when it exited otherwise and they did not change |
| Checker.LimitedBuffer.Write | internal/checker/checker.go:161-175 | The buffer holds the first bytes written, up to its limit, and knows exactly whether any were dropped |
| Gate.ValidateBindingContext | internal/evidence/validate.go:63-107 | A receipt is accepted only if signature, configuration, fingerprint and log all still match, and refused only if one does not or the context expired |
| Gate.ValidateFreshContext | internal/evidence/validate.go:48-57 | Fresh means bound and passed |
| Gate.EvaluateCheck | internal/gate/gate.go:81-120 | One check gets exactly the verdict its evidence deserves and only warns exactly for a signed receipt of its own that says INCONCLUSIVE; an expiry can only turn PASS into a blocking INCONCLUSIVE |
| Gate.EvaluateWithBudget | internal/gate/gate.go:55-140 | While the budget lasts the decision, the verdict and every required check's result are the full ones; whenever it allows, so does the unlimited gate, with the same verdict; every result satisfies the adapters' consistency rules; a budget used up before the first required check blocks |
| Gate.AcceptsGateResult | integrations/deepseek-harness/src/protocol.js:196-235 | The DeepSeek adapter accepts exactly the results with valid verdicts, a decision that fits the verdict, and a reason or message where one is needed |
| Gate.AssessReceipts | internal/incident/incident.go:191-249 | The incident's verdict is the strongest among the required checks, or INCONCLUSIVE without any |
| Gate.StrongerVerdict | internal/incident/incident.go:251-266 | The stronger of two verdicts is one of them and ranks at least as high as both |
| Gate.GateAndIncidentAgree | internal/gate/gate.go:123-139 | With a required check the gate's classification and the incident's fold give the same verdict for every set of receipts |
| Gate.NoRequiredChecks | internal/gate/gate.go:59-64 | Without required checks the gate allows with PASS |
| Gate.PassMeansBound | internal/gate/gate.go:97-120 | PASS means every required check's latest receipt passed and is still bound |
| Gate.AllowMeans | internal/gate/gate.go:75-140 | The gate allows exactly when every check that is not declared optional has a signed receipt of its own that says INCONCLUSIVE, or says PASS and is still bound |
| Gate.VerdictMeans | internal/gate/gate.go:123-140 | The verdict is FAIL exactly when some such check has a signed receipt that says FAIL, and PASS exactly when every one has a signed and bound PASS |
| Freshness.EveryRunSafe | internal/checker/checker.go:40-152 | In every run of edits, checks, crashes and outside changes, signed receipts state what was run where and when, how it ended, which files it saw and what it printed, and every alias that verifies repeats one |
| Freshness.OutsideActs | internal/gate/gate.go:55-140 | The runs range over everything the outside may do: any file edit, any valid configuration, crashes, and any alias that repeats a signed receipt or does not verify |
| Freshness.PassIsJustified | internal/gate/gate.go:55-140 | In every run, PASS means each required check is backed by a run of the current argv and working directory that exited 0, with the files matched by its patterns the same at its start, at its end, and at the gate, whose log is still there, and whose receipt is the check's latest |
| Freshness.GoodRunPasses | internal/checker/checker.go:40-152 | A check that exits 0 while files and configuration stay the same passes the gate; asked of its inputs are only safe names, a command, times in order, a version and paths inside the repository |
| Freshness.RunIsSigned | internal/checker/checker.go:74-152 | Such a run leaves a signed receipt, PASS exactly when it exited 0 with the files unchanged, FAIL exactly when it exited otherwise with the files unchanged |
| Divergence.LatestSession | internal/incident/incident.go:155-173 | The session starts at the latest start that names no agent, and is everything when there is none |
| Sorting.SortIsStable | internal/incident/incident.go:269-276 | Sorting rearranges the events, orders them, and keeps tied ones in their order |
| Divergence.EnclosingEvents | internal/incident/incident.go:348-369 | The boundaries are the last usable event not after the start and the first not before the end, and only in this order |
| Divergence.EventMatchesReceipt | internal/incident/incident.go:309-346 | The tests one after the other accept exactly the failing tool events that repeat the failing receipt within five minutes of its end |
| Divergence.LocateDivergence | internal/incident/incident.go:268-307 | Exact exactly when some event matches a failing receipt, and then the earliest one; a window exactly when there is none and the failing receipt that finished first is enclosed, with the closest events in time; always acceptable to replays |
| Divergence.WindowExists | internal/incident/incident.go:348-369 | A run has a window exactly when it has usable events at or before its start and at or after its end, unless it took no time and a usable event has that very time |
| Divergence.SameInstantHasNoWindow | internal/incident/incident.go:366-368 | A check that took no time, with events before, at and after it, has no window |
| Replay.BuildCase | internal/replay/replay.go:87-108 | A case built from a located divergence can be loaded |
| Replay.LoadCase | internal/replay/replay.go:87-109 | Loading accepts exactly the cases with a valid contract, whose location names what its precision needs and nothing else |
| Replay.Verify | internal/replay/replay.go:128-204 | Verification plans and runs only the selected checks of the current configuration and reports the strongest of their verdicts; a dry run is inconclusive |
| DeepSeek.SessionState.Add | integrations/deepseek-harness/src/index.js:107-112 | An event is queued exactly when its ID is new |
| DeepSeek.SessionState.ChainStart | integrations/deepseek-harness/src/index.js:114-117 | A flush takes everything that is pending as its batch; with nothing pending it has succeeded |
| DeepSeek.SessionState.IngestEnd | integrations/deepseek-harness/src/index.js:118-131 | A flush succeeds exactly when its batch is acknowledged completely, and then removes it as a prefix of what is pending; otherwise nothing is removed |
| DeepSeek.ParseIngestResult | integrations/deepseek-harness/src/protocol.js:172-194 | A reply is accepted exactly when it lists the IDs of the whole batch in order |
| DeepSeek.SessionState.StopBegin | integrations/deepseek-harness/src/index.js:183-193 | A stop attempt is counted, recorded once and followed by a flush of its own |
| DeepSeek.SessionState.StopEnd | integrations/deepseek-harness/src/index.js:194-221 | A stop is accepted exactly when its flush succeeded and the gate allowed it, and then everything enqueued before that flush was asked for is acknowledged; any other stop that was not aborted steers the turn, exactly when it was not steered already |
| DeepSeek.SessionState.EndTurn | integrations/deepseek-harness/src/index.js:159-164 | Ending a turn forgets its attempts and makes it steerable again |
| DeepSeek.SessionState.Dispose | integrations/deepseek-harness/src/index.js:224-228 | Disposal queues the end event and asks for the flush after which the state is dropped |
| DeepSeek.SessionState.Unload | integrations/deepseek-harness/src/index.js:230-243 | Unloading asks for a last flush and changes nothing else |
| DeepSeek.DroppedIsOutOfReach | integrations/deepseek-harness/src/index.js:142-145 | No handler reaches a state after it was dropped |
| DeepSeek.Conserved | integrations/deepseek-harness/src/index.js:107-243 | In any interleaving, disposal included, acknowledged events followed by those still held are all events offered, each ID once and in order, and no turn is steered twice without ending in between |
| DeepSeek.NothingLostExactly | integrations/deepseek-harness/src/index.js:114-146 | When a dropped state has settled its flushes, everything offered was acknowledged exactly when its last flush succeeded and nothing was enqueued after that one started; and it was dropped only once a final flush had settled |
| DeepSeek.FinalFlushDecides | integrations/deepseek-harness/src/index.js:135-146 | At a drop with no later flush asked for, nothing is lost exactly when the final flush was acknowledged and nothing was enqueued between its start and the drop |
| DeepSeek.LostForGood | integrations/deepseek-harness/src/index.js:135-146 | What a dropped and settled state still holds is never acknowledged, whatever happens afterwards |
| DeepSeek.LostToFailedFlush | integrations/deepseek-harness/src/index.js:135-146 | A final flush that fails loses every pending event |
| DeepSeek.LostWhileFlushing | integrations/deepseek-harness/src/index.js:135-146 | A final flush that succeeds loses an event that arrived while it ran |
| DeepSeek.LaterFlushSaves | integrations/deepseek-harness/src/index.js:114-146 | A flush asked for during the final one still runs after the drop and saves that event |
| Delivery.EndToEnd | internal/adapter/adapter.go:38-62 | In any run of handlers, commands, other writers, kills and lost replies, every event offered is still held by the session or in the ledger under its ID, and no ID is in the ledger twice |
| Delivery.SucceedsExactly | internal/adapter/adapter.go:38-62 | A flush whose command is about to start can succeed in some future exactly when its batch keeps its IDs, can be encoded and fits, and none of its IDs is committed |
| Delivery.UnseenCommitWedges | internal/adapter/adapter.go:54-58 | When a batch was committed and its reply is lost, or the command fails afterwards, the session is wedged |
| Delivery.WedgedForever | integrations/deepseek-harness/src/index.js:114-131 | From then on no flush succeeds, no stop that waits for one is accepted, and nothing more is acknowledged, in every continuation |
| PiGuard.Guard.RestoreStopState | internal/setup/pi.go:305-312 | The restored state is the last one saved on the branch, or a new prompt |
| PiGuard.Guard.RequestOneCorrection | internal/setup/pi.go:322-350 | A message goes out exactly when the gate blocked, the prompt had no message, the used flag was saved and sending did not throw |
| PiGuard.Guard.OnInput | internal/setup/pi.go:361-371 | The extension's own input keeps the guard, any other input issues a new prompt |
| PiGuard.OneCorrectionPerPrompt | internal/setup/pi.go:295-371 | Along one branch no prompt gets two corrective messages, whatever restarts and failures to save or send happen |
| PiGuard.CorrectableExactly | internal/setup/pi.go:305-350 | In every session a prompt can get another message without leaving the branch exactly when the guard holds it uncorrected or a restart would restore it so |
| PiGuard.CorrectedAgainExactly | internal/setup/pi.go:305-312 | In every session, moves and forks included, a corrected prompt can be corrected again after a fork exactly when the state saved last before the fork shows it uncorrected |
| PiGuard.SecondMessageAfterFork | internal/setup/pi.go:305-350 | A run of save, correction, fork and block sends two messages for one prompt |
| Redact.FindSensitiveKeyMatches | internal/redact/redact.go:167-218 | The scanner terminates on every input and returns the sensitive names from left to right |
| Redact.SensitiveExactly | internal/redact/redact.go:241-253 | A name is sensitive exactly when some part of it writes a marker, in any letter case and with any dashes and underscores, or its end so writes "auth" |
| Redact.MarkerInside | internal/redact/redact.go:241-253 | A marker makes a name sensitive whatever stands around it |
| Redact.NamesAreOrdered | internal/redact/redact.go:167-218 | The matches are non-empty, within the text, in order and disjoint |
| Redact.PlainNames | internal/redact/redact.go:167-218 | In text without backslashes and control characters exactly the longest sensitive words are found |
| Redact.SpelledName | internal/redact/redact.go:167-218 | A name written with escapes, or broken up by ignorable characters or their escapes, is read as the name it means |
| Redact.DisguisedNameFound | internal/redact/redact.go:167-218 | A disguised sensitive name is found as a whole where the scanner reaches its start and nothing continues it |
| Redact.AssignmentEnd | internal/redact/redact.go:119-165 | An assignment is recognised exactly when a separator follows; a quoted value ends behind the first quote of the same kind and escape depth, or with the text; other values end with their line or before an ampersand, authorization headers with their line |
| Redact.ValueEndsOnce | internal/redact/redact.go:135-164 | A value has one end |
| Redact.AssignmentsUnique | internal/redact/redact.go:92-117 | These properties determine the replaced spans: no other choice of spans has them |
| Redact.RedactAssignments | internal/redact/redact.go:92-117 | The result is the text with ordered disjoint spans replaced by the marker; every assignment is replaced from its name through its end unless it starts inside an earlier span, and nothing else is |
| Redact.AuthorizationExactly | internal/redact/redact.go:104 | Only the name of the header itself, in any letter case, makes a value run to the end of its line |
| Redact.SecretsAreReplaced | internal/redact/redact.go:92-117 | In plain text every word with such a part that a separator follows lies inside a replaced span with its separator, and a span that starts at it ends where its value ends |
| Redact.NothingLeft | internal/redact/redact.go:92-117 | A text that is one such assignment of an unquoted value becomes the marker |

## Left out

- The runtime directories themselves, their creation and syncing, and the temporary files beside the state file: they hold no event and no evidence.
- The lock: it is an exclusive token that a dead writer releases. Power loss and the order of file synchronisation are not modelled, only kills.
- The order in which directory entries are read, and what a reader sees of an entry besides its name and size.
- The fields of a saved state or claim beyond those named; a file that does not parse is one value.
- Git's pathspec dialect: what Git lists is an input, so the batches passed to it do not appear.
- Symbolic links and path containment: a file that leads outside is unreadable.
- Windows path separators.
- Changes that are made and undone while a check or a gate runs.
- Forgery by someone who has the signing key: only the end of a check signs.
- Timeouts, process handling and the texts of messages and summaries; capture limits appear as `LimitedBuffer`.
- The regular expressions applied before and after the assignment redactor, and the normalisation of control characters.
- Idempotence of redaction, which the source does not promise.
- Writing reports, cases and incidents to disk, transcripts, difference summaries and pruning.
- Installing and removing hooks and extensions, the command line, the website and packaging.
- Glob.CompileGlob: invalid UTF-8 in patterns, which the regular expression compiler rejects, does not exist among sequences of characters.
- DeepSeek.SessionState.StopEnd: does not model what the steering message says.
- DeepSeek.Conserved: a session that goes on after its state was dropped gets a new state, which is another session here with a steering record of its own.
- Delivery.EndToEnd: the configuration the command normalizes with is fixed in a run, and its input limit counts as events that cannot be stored.
- PiGuard.CorrectedAgainExactly: does not say what happens after a move to another branch that no session start follows; there the guard keeps what it has in memory.
