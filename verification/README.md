# Verified models of the gateway's core

This project models the parts of Alayra Nexus whose correctness cannot be read off one function, and
proves what their comments and tests promise. Check it with `dafny verify dfyconfig.toml`.

**Token counting** (`src/lib/bpeCount.ts`). `BpeSpec` states the byte-pair rule naively, on bytes: merge the
adjacent pair of lowest rank, the leftmost on a tie, while some pair joins into a token. `PairTable`, `MinHeap`, `LinkedParts`,
`BpeCounter` and `HeapMerge` are the code's own forms, in place on arrays: the open-addressing pair table, the binary
heap with lazy deletion, the linked list in integer arrays, the flat scan. Both merges return the length of the naive
merge for every piece. `Utf8` and `TokenCount` add slicing of very long pieces and the whole count, which is said of
tokens that spell the text.

**Stream translation** (`src/lib/anthropic.ts`). `AnthropicStream` is the translator as a class; its methods are tied
to functions on its fields. `StreamRuns` gives the protocol as an automaton and a client that reads blocks by it, and
proves every run is accepted and read as exactly the parts the chunks carried. `StreamMeaning` counts the events of a
run and proves that how the text was cut never matters. `StreamCarries` proves that all the chunks carry, failures too,
reaches the client in order, from the frames on. `StreamAgreement` proves when the stream and the unstreamed
translation agree.

**Admission and the circuit breaker** (`src/lib/admission.ts`, `src/lib/rateWindow.ts`, `src/lib/breaker.ts`,
`src/lib/selectKey.ts`, `src/lib/kv/memory.ts`). `KvStore` is the in-process store, whose lazy expiry is proved to answer
as if entries vanished at their deadline. Each script of `Admission`, `Breaker` and `SelectKey` is one step on it, and
`Gateways` interleaves the steps of any number of gateways, each on its own clock; `AdmissionRuns`, `AdmissionLedger` and
`BreakerRuns` hold over all those runs, the request path's picks among them. `RateWindow` says what the two counters
grant over the trailing window, and `BreakerRecovery` what shuts a key, what a success undoes, and what the gate answers
between.

**Backups** (`src/lib/backupSchedule.ts`, `src/lib/backupDestination.ts`). `BackupSchedule` has the due instants and the
polling runs, `BackupNames` the names and the calendar, `Retention` the sweep, and `BackupDestination` the
write-then-rename protocol over a directory whose names link to files, with write errors and crashes anywhere.

**Smaller cores.** `CoreBoundary` and `BoundaryReport` (`scripts/lint/coreBoundary.ts`), `BulkInsert` (`src/lib/bulkInsert.ts`) and
`ClientWriter` (`src/lib/clientWriter.ts`).

Where the source's own words and its code part ways, the code is kept and the difference is proved:

- A streamed reply and its unstreamed twin agree exactly when no text follows a tool call, and the stream carried
  something or no chunk at all (`StreamAgreement.StreamedEqualsUnstreamed`).
- `end()` is called idempotent-safe; a second call repeats the terminal events, which no client that keeps the protocol
  accepts (`StreamMeaning.EndTwice`).
- Releasing a reservation in full restores the counter exactly when the amount asked for was a whole number of at least
  one token: admission rounds it up and the release does not (`AdmissionLedger.ReleaseRestores`).
- A counter lives to the end of the following window exactly when its window had begun by the store's clock: a gateway
  whose clock runs ahead can lose it early (`AdmissionRuns.FreshDeadline`). A comment in `src/lib/admission.ts` has the
  window taken from the store's own clock; the code takes the gateway's, and the limits hold by any clocks
  (`AdmissionRuns.LimitsAlwaysHold`).
- A trip reported by a gateway whose clock lags reopens a key early exactly when it lags by more than the next cooldown
  adds; at the cap it adds nothing (`BreakerRuns.LagAllowed`).
- "One run per due window" fails in two ways. A "back up now" stamped before the window and recorded after its run, as
  when a gateway's clock is behind, makes the next poll run the window again (`BackupSchedule.TwoRunsInOneWindow`), and
  nothing else does (`BackupSchedule.SecondRunIsSetBack`). A visit stamped past the window and recorded before the
  window's first visit, as when a gateway's clock is ahead, leaves a polled window with no run
  (`BackupSchedule.WindowMissed`). A window has a run exactly when a visit in it is by hand or finds the window not
  reached (`BackupSchedule.WindowRunsExactly`).
- A settlement goes to the window that is current when the answer comes back, and the file says the error of a refund is
  bounded by one request's over-reservation. Over whole runs the counter is off by no more than such settlements asked
  for (`AdmissionLedger.WindowStaysBalanced`), each at most its reservation (`AdmissionLedger.ChangeBounds`).
- Writing to `<name>.partial` protects a backup exactly as long as no earlier stream is in the way: one under the same
  name that may yet commit, or whose last bytes may yet land in the part file (`BackupDestination.SafeToBegin`).
- `commit` looks at errors only. A stream destroyed without one, while it may yet be committed and bytes are still to
  land, becomes a backup cut short; otherwise destroying it is safe (`BackupDestination.SafeToDestroy`).

## Model

The first 60 rows are the main results; the others are what they stand on.

| member | source | states |
|---|---|---|
| HeapMerge.Merger.HeapMerge | src/lib/bpeCount.ts:182-214 | returns the length of the naive merge of any slice |
| BpeCounter.ScanMerge | src/lib/bpeCount.ts:135-151 | returns the length of the naive merge of every piece within SCAN_BYTES |
| BpeSpec.MergeSound | src/lib/bpeCount.ts:135-151 | the tokens that survive spell the piece, all are tokens, and no neighbours still merge |
| PairTable.PairTable.Joined | src/lib/bpeCount.ts:77-83 | a lookup always ends, with the pair's entry or NONE |
| PairTable.BuildPairs | src/lib/bpeCount.ts:85-102 | the finished table answers for every pair of ranks of the vocabulary |
| HeapMerge.Merger.MergeAll | src/lib/bpeCount.ts:198-213 | the loop ends with the length of the naive merge, and pushes at most two keys for each of the n - count merges |
| HeapMerge.Merger.MergePrepared | src/lib/bpeCount.ts:186-213 | a whole merge on prepared scratch pushes at most 3n - 3 keys, so the heap of 3n never overflows |
| TokenCount.SlicesSound | src/lib/bpeCount.ts:216-227 | the slices of well-formed text partition it, end between characters, are non-empty and within SLICE_BYTES |
| TokenCount.TokenCounter.Count | src/lib/bpeCount.ts:243-253 | the count is, piece by piece, 1 for a token and else the number of settled tokens that spell it, slice by slice, plus 8 a cut; so it is that of tokens that spell the text, with no cut where no piece is longer than SLICE_BYTES |
| StreamRuns.RunsAreWellFormed | src/lib/anthropic.ts:230-380 | every run keeps the protocol to its end, and the client has read exactly what the chunks carried |
| StreamMeaning.RunEvents | src/lib/anthropic.ts:282-379 | one message_start, first; blocks numbered from 0, each started once and stopped once; one message_delta then one message_stop, last |
| StreamMeaning.FedWhileOpen | src/lib/anthropic.ts:317-341 | a block is fed or stopped only while open; when one starts every text block before it has stopped |
| StreamMeaning.CutsNeverMatter | src/lib/anthropic.ts:269-280 | any cutting of a text gives the same events, fields and buffer |
| StreamCarries.NothingLost | src/lib/anthropic.ts:282-379 | over every run: the texts, argument fragments and failures that reach the client are those the chunks carry, in order, and no others |
| StreamCarries.ErrorsReach | src/lib/anthropic.ts:292-306 | one error event for each chunk that carries an error, in order, with its message or the one given in its place, after message_start and before message_delta |
| StreamCarries.TranslateFrames | src/lib/anthropic.ts:269-379 | however the frames of a provider are cut into pieces, the output is the run of the chunks they hold |
| StreamAgreement.StreamedEqualsUnstreamed | src/lib/anthropic.ts:168-198 | for calls numbered as they appear: the streamed blocks are the unstreamed ones, tool arguments taken as strings or as what they parse to, if and only if no text follows a tool call, and the stream carried something or no chunk |
| StreamAgreement.ArgsKept | src/lib/anthropic.ts:327-341 | all argument fragments of a tool reach the one block of that tool, in order |
| AdmissionRuns.LimitsAlwaysHold | src/lib/admission.ts:68-158 | over every interleaving of every gateway's steps, by any clocks: no request counter passes its limit, nor a token counter while reconciling refunds; none is negative or without a deadline; no key serves more users than its cap |
| AdmissionLedger.WindowStaysBalanced | src/lib/admission.ts:68-252 | over every interleaving, each gateway on its own clock, till the end of the following window: the window's counter is outstanding reservations plus what settled requests count for, but for at most what settlements of requests booked elsewhere asked to add, and to take off |
| AdmissionRuns.CountersOutlive | src/lib/rateWindow.ts:94-103 | over every run: no counter ever expires before the end of the window that reads it as previous if and only if each deadline is set in a window that has begun by the store's clock |
| RateWindow.GrantedWithin | src/lib/admission.ts:81-103 | a request admitted leaves both trailing counts within their limits, to the end of its window, until something more is counted |
| RateWindow.NoJump | src/lib/rateWindow.ts:76-94 | from one window to the next the trailing count falls by no more than one part in the milliseconds of a window of what was counted two windows back |
| SelectKey.WinnerIsFirst | src/lib/selectKey.ts:90-224 | the winner is the first candidate that passes breaker, user cap and both budgets, there is none only when no candidate does, and nothing is written but the winner's own keys |
| SelectKey.OneStepIsThree | src/lib/selectKey.ts:23-31 | one step does to the store what the three separate questions did, asked of a candidate that passes |
| SelectKey.RefusedByBoth | src/lib/selectKey.ts:226-251 | whatever happens between the two passes: a request is refused if and only if no candidate passes the first and, where that was on an estimate above the exact count, none passes the second |
| SelectKey.TwicePicks | src/lib/selectKey.ts:226-251 | which candidate a request gets, and through which gate: the first that passes at the number, at the exact count, or at the estimate, as the case is |
| SelectKey.RefusedAtExactCount | src/lib/selectKey.ts:226-251 | with nothing stepping between the two passes: a request is refused if and only if no candidate passes at its exact count, where the estimate is not below it or is counted at once; at the estimate otherwise |
| BreakerRuns.OpenAfterTrip | src/lib/breaker.ts:73-135 | after a trip, and no success or rate limit since, no request is let through before the cooldown ends, nor ever but as the probe until the open key's deadline, while no gateway whose report trips the key again lags by more than the next cooldown adds |
| BreakerRuns.LagAllowed | src/lib/breaker.ts:98-108 | that allowance is exact: one more trip keeps requests out that long if and only if its gateway lags by no more |
| BreakerRuns.ProbesApart | src/lib/breaker.ts:76-90 | two claims of a key's probe slot, by whoever and however asked, with no report between are at least PROBE_TTL_SECONDS apart |
| BreakerRuns.BreakerIsItsMemory | src/lib/breaker.ts:96-135 | over every run fewer than three strikes are stored, and the cooldown is that of the trips in a row |
| BreakerRuns.NextFailureAnswers | src/lib/breaker.ts:159-174 | the next failure trips if and only if it is a probe's or the third of its window; the k-th trip cools min(600, 10 * 2^(k-1)) |
| BreakerRecovery.ClosedUntilShut | src/lib/breaker.ts:76-187 | over every run a closed key stays closed to every gateway if and only if no failure trips it and no rate limit is reported on it |
| BreakerRecovery.SuccessCloses | src/lib/breaker.ts:153-156 | after a success, until then, every gateway is answered "closed", by whatever clock, and no pick takes the probe slot |
| BreakerRecovery.AfterTrip | src/lib/breaker.ts:76-135 | after a trip and no report that matters, every answer: open before the reopening instant, then the probe slot when it is free, and closed once the open key is past its deadline |
| BreakerRecovery.AfterRateLimit | src/lib/breaker.ts:180-187 | after a rate limit likewise: nobody is let through for its seconds |
| BackupSchedule.LastDueAt | src/lib/backupSchedule.ts:176-188 | the walk back finds it, and never answers null |
| BackupSchedule.NextDueAt | src/lib/backupSchedule.ts:191-203 | the walk forward finds the least due instant after now; the fallback is never used |
| BackupSchedule.ReachedByVisit | src/services/backupSchedule.service.ts:256-302 | over every run of visits, whatever instants they are stamped with: the record has reached a due instant if and only if it had, or some visit has, and no later "back up now" set it back |
| BackupSchedule.SecondRunIsSetBack | src/services/backupSchedule.service.ts:256-302 | a poll runs a window a second time only after a "back up now" stamped before the window was recorded in between |
| BackupSchedule.WindowRunsExactly | src/services/backupSchedule.service.ts:256-302 | over every run of visits: a window has a run in it if and only if some visit in it is by hand or finds its instant not reached |
| BackupSchedule.OneRunPerWindow | src/services/backupSchedule.service.ts:256-302 | with none so recorded and no run there before: a window gets its run if and only if a visit in it is by hand or every visit before its first is stamped before it; and it gets no other but by hand |
| Retention.PrunableMeaning | src/lib/backupSchedule.ts:232-236 | what may be deleted is exactly the backups with `keep` newer ones beside them, oldest first |
| Retention.SweepKeepsNewest | src/services/backupCopy.service.ts:80-83 | a sweep keeps the min(keep, count) newest backups, and every other file |
| Retention.SweepResumes | src/services/backupCopy.service.ts:80-83 | removals that failed are exactly what the next sweep has left to do; after a full sweep, nothing |
| BackupNames.NamesSortByAge | src/lib/backupSchedule.ts:227-231 | which on the calendar is the order of the instants |
| BackupDestination.AlwaysComplete | src/lib/backupDestination.ts:71-150 | while streams begin only backups, each under a name no sink is in the way of, and none to be committed is destroyed with bytes to land: at every point of every run each file with a backup's name holds a complete, error-free stream |
| BackupDestination.SafeToBegin | src/lib/backupDestination.ts:94-150 | beginning under a name is safe for all runs that follow if and only if no sink is in its way |
| BackupDestination.SafeToDestroy | src/lib/backupDestination.ts:121-141 | destroying a stream without an error is safe for all runs that follow if and only if it may no longer be committed or has no bytes to land |
| BackupDestination.BackupStays | src/lib/backupDestination.ts:94-150 | over every run, crashes and aborts in it: a backup keeps its name, its file and every byte until its name is removed or committed again |
| CoreBoundary.CheckBoundary | scripts/lint/coreBoundary.ts:127-168 | ends; reports exactly the reachable files and allowed packages, and each problem of each reachable file once with a shortest import path |
| BoundaryReport.ViolationsSay | scripts/lint/coreBoundary.ts:127-168 | a report gives a reason for a file if and only if the core reaches it and it is forbidden, or reads an import of no file, or of a package that is neither built in nor allowed |
| BoundaryReport.PackagesSay | scripts/lint/coreBoundary.ts:102-163 | a report lists a package if and only if it is allowed and a file the core reaches imports it |
| BulkInsert.CreateManyIgnoringDuplicates | src/lib/bulkInsert.ts:67-110 | on either engine the same table and the number of new rows; an error is the database's own, never a duplicate, with a prefix landed |
| BulkInsert.RetriesReach | src/lib/bulkInsert.ts:20-24 | so does any number of failures before it |
| BulkInsert.InsertUntilWell | src/lib/bulkInsert.ts:20-24 | calling again after each failure, whatever landed, ends with the table of one call that never failed |
| ClientWriter.NoLostWakeUp | src/lib/clientWriter.ts:69-73 | before release a refused write waits if and only if the sink emits and nothing but draining has happened |
| ClientWriter.ClientWriter.Happen | src/lib/clientWriter.ts:75-88 | and keeps listeners, waits and departure in step with what has happened |
| ClientWriter.ClientWriter.NothingLeft | src/lib/clientWriter.ts:64-81 | released and with every wait over, no listener of the writer's remains |
| BpeSpec.BestExists | src/lib/bpeCount.ts:139-142 | while some pair is a token, there is a lowest, leftmost one to merge |
| BpeSpec.BestUnique | src/lib/bpeCount.ts:139-142 | there is only one such pair: the rule leaves no choice |
| BpeSpec.MergeStep | src/lib/bpeCount.ts:139-149 | merging the best pair first does not change what the merge comes to |
| BpeSpec.FlattenMergeAt | src/lib/bpeCount.ts:143-145 | one merge keeps the bytes the parts spell |
| BpeSpec.TokensMergeAt | src/lib/bpeCount.ts:143-145 | one merge of a pair with a rank leaves only tokens |
| BpeSpec.FlattenSingles | src/lib/bpeCount.ts:137 | the single bytes a merge starts from spell the piece |
| PairTable.SlotInTable | src/lib/bpeCount.ts:73-74 | the 32-bit multiply, xor and shift always name a slot of the table |
| PairTable.SplitsDiffer | src/lib/bpeCount.ts:87-92 | two different splits never have the same pair of ranks, so no pair is inserted twice |
| PairTable.CollectSplits | src/lib/bpeCount.ts:86-92 | the columns hold each split of each token into two tokens, once |
| PairTable.TableBits | src/lib/bpeCount.ts:93-94 | the size is the least power of two, at least 2, that leaves the table at most 5/8 full |
| PairTable.RoomLeft | src/lib/bpeCount.ts:94-99 | a table not full has a free slot, so every probe ends |
| PairTable.FreeSlot | src/lib/bpeCount.ts:98-99 | the insertion's probe ends at the first free slot from the pair's home |
| PairTable.GapMeansAbsent | src/lib/bpeCount.ts:78-82 | a probe that meets a free slot has ruled the pair out |
| PairTable.FillSlot | src/lib/bpeCount.ts:97-101 | filling the slot a probe stopped at keeps the table right, with one more entry |
| PairTable.NewEntry | src/lib/bpeCount.ts:97-101 | the pair about to be inserted is not in the table, and inserting it adds just its entry |
| PairTable.FillTable | src/lib/bpeCount.ts:97-101 | the filled table holds exactly the collected pairs |
| PairTable.AnswersPairRank | src/lib/bpeCount.ts:76-83 | for two tokens' ranks the table's answer is the rank of their joined bytes, or NONE |
| PairTable.PairTable.constructor | src/lib/bpeCount.ts:85-102 | the built table is valid and answers for the whole vocabulary |
| PairTable.SmallVocabulary | src/lib/bpeCount.ts:104-124 | what is assumed of a vocabulary can be met: every byte a token, and one token of two |
| MinHeap.RootIsLeast | src/lib/bpeCount.ts:159-179 | in a heap the root is no greater than any key |
| MinHeap.SiftUpStep | src/lib/bpeCount.ts:161-165 | moving a parent down keeps the heap ordered but for the hole |
| MinHeap.SiftDownStep | src/lib/bpeCount.ts:172-176 | moving the lesser child up keeps the heap ordered but for the hole |
| MinHeap.MinHeap.Push | src/lib/bpeCount.ts:159-167 | adds one key, exactly, keeps the heap order, and counts one push |
| MinHeap.MinHeap.Pop | src/lib/bpeCount.ts:169-179 | removes one least key, exactly, and keeps the heap order |
| MinHeap.MinHeap.SinkLast | src/lib/bpeCount.ts:171-177 | the hole at the root sinks to where the last key belongs; the keys are the old ones without the top |
| LinkedParts.KeyOrder | src/lib/bpeCount.ts:195-200 | packed keys order exactly as (rank, start), unpack to what was packed, and below 2^21 are exact in a double |
| LinkedParts.LeastKeyIsBest | src/lib/bpeCount.ts:200-202 | a least key that is not stale names the pair the naive rule merges next |
| LinkedParts.StaleDropped | src/lib/bpeCount.ts:201 | dropping a stale key loses no live pair |
| LinkedParts.EmptyMeansDone | src/lib/bpeCount.ts:199-213 | when the heap is empty no pair is left to merge |
| LinkedParts.UnlinkNext | src/lib/bpeCount.ts:203 | the forward links then skip exactly the merged part |
| LinkedParts.UnlinkPrev | src/lib/bpeCount.ts:203 | so do the backward links |
| LinkedParts.UnlinkToken | src/lib/bpeCount.ts:203 | the token row then holds the ranks of the merged parts |
| LinkedParts.UnlinkRank | src/lib/bpeCount.ts:204-211 | every live start then has its pair's current rank, every dead one -1 |
| LinkedParts.LinkedAfter | src/lib/bpeCount.ts:203-211 | after a merge the four rows hold the list of the parts after it |
| LinkedParts.MergedCovered | src/lib/bpeCount.ts:204-211 | after a merge every live pair that merges still has its key in the heap |
| BpeCounter.Cl100k.constructor | src/lib/bpeCount.ts:104-124 | the loaded vocabulary has its byte ranks, longest token and pair table |
| BpeCounter.Cl100k.Join | src/lib/bpeCount.ts:77-83 | looking two parts' ranks up gives the rank of their joined bytes |
| BpeCounter.Longest | src/lib/bpeCount.ts:121-122 | no token is longer, and one is that long |
| BpeCounter.LowestPair | src/lib/bpeCount.ts:140-141 | the leftmost lowest rank, or none below NONE |
| BpeCounter.LowestIsBest | src/lib/bpeCount.ts:140-143 | the leftmost lowest rank of the row is the pair the naive rule merges next |
| BpeCounter.NothingLeft | src/lib/bpeCount.ts:142 | a scan that finds no rank has finished the naive merge |
| BpeCounter.StartScan | src/lib/bpeCount.ts:136-138 | the rows hold every byte's rank and every pair's |
| BpeCounter.StartTokens | src/lib/bpeCount.ts:137 | the row of byte ranks |
| BpeCounter.StartPairs | src/lib/bpeCount.ts:138 | the row of pair ranks |
| BpeCounter.CopyLeft | src/lib/bpeCount.ts:144-145 | copyWithin: the tail moves left, the rest stays |
| BpeCounter.CloseGap | src/lib/bpeCount.ts:143-146 | the merged token is written and both rows close up |
| BpeCounter.LookUpBoth | src/lib/bpeCount.ts:147-148 | only the two pairs of the merged token are looked up again |
| BpeCounter.RowsMerged | src/lib/bpeCount.ts:143-148 | with its two neighbours looked up again the rows are those of the merged parts |
| BpeCounter.MergeRows | src/lib/bpeCount.ts:143-148 | one merge in place is one merge of the naive rule |
| HeapMerge.Merger.Prepare | src/lib/bpeCount.ts:186-190 | the scratch is large enough, and never shrinks |
| HeapMerge.Merger.FillList | src/lib/bpeCount.ts:191 | every byte is a part, linked to its neighbours |
| HeapMerge.Merger.PushFirst | src/lib/bpeCount.ts:192-197 | every first pair that merges has its rank recorded and its key in the heap, at most n - 1 keys |
| HeapMerge.Merger.Begin | src/lib/bpeCount.ts:190-197 | the rows hold the list of single bytes, and every first pair that merges has its key |
| HeapMerge.AllLinked | src/lib/bpeCount.ts:191-197 | the first rows hold the list of single bytes |
| HeapMerge.AfterPop | src/lib/bpeCount.ts:200-201 | after a pop, either the key was stale and nothing is lost, or it names the best pair |
| HeapMerge.Merger.PopPair | src/lib/bpeCount.ts:200-201 | the same, of the heap in place |
| HeapMerge.Merger.Unlink | src/lib/bpeCount.ts:202-204 | links, tokens and the dead rank after one merge |
| HeapMerge.Merger.PushRight | src/lib/bpeCount.ts:205-206 | the pair that begins at the merged part is looked up and pushed |
| HeapMerge.Merger.PushLeft | src/lib/bpeCount.ts:207-211 | so is the pair that ends at it |
| HeapMerge.Merger.PushBoth | src/lib/bpeCount.ts:205-211 | at most two keys are pushed a merge |
| HeapMerge.Merger.MergePair | src/lib/bpeCount.ts:202-211 | one merge keeps the list, the ranks and the heap in step with the naive rule |
| HeapMerge.Merger.UnlinkAndPush | src/lib/bpeCount.ts:202-211 | the list skips the merged part and the merged token's two pairs are ranked and pushed |
| HeapMerge.MergedHolds | src/lib/bpeCount.ts:202-211 | after a merge the rows and the heap are again in step |
| HeapMerge.Merger.Round | src/lib/bpeCount.ts:199-212 | one round drops a stale key or merges the pair the naive rule picks; the naive outcome stays |
| Utf8.TailByMask | src/lib/bpeCount.ts:222 | the mask test is the test for a tail byte (section 3 of RFC 3629) |
| Utf8.EncodedIsWellFormed | src/lib/bpeCount.ts:229-235 | the encoding of any characters is well-formed |
| Utf8.WellFormedIsEncoded | src/lib/bpeCount.ts:229-235 | well-formed text is the encoding of some characters |
| Utf8.CutBetween | src/lib/bpeCount.ts:222 | well-formed text cut before any other byte is two well-formed texts |
| Utf8.StartNearby | src/lib/bpeCount.ts:222 | some byte among any four in a row begins a character, so stepping back ends at once |
| TokenCount.CutIs | src/lib/bpeCount.ts:220-224 | one cut takes its slice's exact count and one margin off what is left |
| TokenCount.CutAt | src/lib/bpeCount.ts:221-224 | the cut found there takes its slice's exact count and one margin off what is left |
| TokenCount.StepBack | src/lib/bpeCount.ts:221-222 | stepping back stops at the start of the last character that begins within the limit, after the slice's own |
| TokenCount.TokenCounter.CountSlice | src/lib/bpeCount.ts:221-224 | the slice at hand is counted exactly, and ends where it does |
| TokenCount.TokenCounter.SliceBySlice | src/lib/bpeCount.ts:219-226 | the loop adds the exact counts of the slices and 8 per cut |
| TokenCount.ShortIsExact | src/lib/bpeCount.ts:218 | a piece within the limit is counted exactly |
| TokenCount.TokenCounter.LongPiece | src/lib/bpeCount.ts:217-227 | a piece within the limit is counted whole, a longer one by its slices' exact counts plus 8 per cut |
| TokenCount.WholeToken | src/lib/bpeCount.ts:249 | the two shortcuts together are exactly "the piece is a token" |
| TokenCount.CountedParts | src/lib/bpeCount.ts:243-253 | what is counted is a tokenization of the piece |
| TokenCount.CountedText | src/lib/bpeCount.ts:243-253 | the count of a text is that of its tokens, as said there |
| TokenCount.CountedPiece | src/lib/bpeCount.ts:249-250 | so is the count of a piece |
| TokenCount.TokensSpell | src/lib/bpeCount.ts:243-253 | the tokens of all pieces together spell the text |
| TokenCount.TokenCounter.CountPiece | src/lib/bpeCount.ts:249-250 | 1 for a token; else the number of the tokens the naive rule makes of the piece, whole or slice by slice, plus 8 a cut |
| AnthropicStream.AnthropicStreamTranslator.constructor | src/lib/anthropic.ts:230-247 | a new translator has opened nothing |
| AnthropicStream.AnthropicStreamTranslator.SetModel | src/lib/anthropic.ts:264-266 | only a name that is not empty is taken |
| AnthropicStream.AnthropicStreamTranslator.BeginMessage | src/lib/anthropic.ts:347-358 | starts the message, with the chunk's model if it names one |
| AnthropicStream.AnthropicStreamTranslator.Consume | src/lib/anthropic.ts:282-345 | events and fields after one payload, errors and usage included |
| AnthropicStream.AnthropicStreamTranslator.ConsumeChoice | src/lib/anthropic.ts:313-344 | events and fields after the text, tools and finish reason of a chunk |
| AnthropicStream.AnthropicStreamTranslator.ConsumeText | src/lib/anthropic.ts:317-325 | events and fields after a text run |
| AnthropicStream.AnthropicStreamTranslator.ConsumeTools | src/lib/anthropic.ts:327-341 | the same of all tool fragments of a chunk |
| AnthropicStream.AnthropicStreamTranslator.ConsumeTool | src/lib/anthropic.ts:328-340 | the same of one fragment |
| AnthropicStream.AnthropicStreamTranslator.NextLine | src/lib/anthropic.ts:274-278 | takes the first complete line, and only it, off the buffer |
| AnthropicStream.AnthropicStreamTranslator.Push | src/lib/anthropic.ts:269-280 | every complete line is consumed in order; the partial one stays |
| AnthropicStream.AnthropicStreamTranslator.End | src/lib/anthropic.ts:361-379 | closes what is open, then the terminal events |
| AnthropicStream.FeedAppend | src/lib/anthropic.ts:269-345 | feeding two batches in turn is feeding them as one |
| StreamCarries.ErrorInPlace | src/lib/anthropic.ts:292-306 | an error event stands after all that the chunks before it told, and nothing more |
| StreamCarries.ChunkHeard | src/lib/anthropic.ts:282-345 | the events of a chunk say what it carries |
| StreamCarries.HeadSays | src/lib/anthropic.ts:347-358 | message_start has the first id drawn, the model the first chunk names or the one given, and no tokens yet |
| StreamCarries.ReadByLine | src/lib/anthropic.ts:269-280 | every complete line is read, in order, and the rest waits |
| StreamCarries.DataLine | src/lib/anthropic.ts:274-285 | a data line yields the chunk its payload holds, whatever space is around either, and none for [DONE] |
| StreamCarries.FramesHold | src/lib/anthropic.ts:269-285 | the frames of some payloads hold just their chunks |
| Text.TrimOf | src/lib/anthropic.ts:275-277 | trimming takes off the spaces around a text, all of them and nothing else |
| StreamRuns.TextStep | src/lib/anthropic.ts:317-325 | after a text run the client has read the run, in the open text block or a new one |
| StreamRuns.OpenToolStep | src/lib/anthropic.ts:331-337 | a new tool's block starts once the text block has stopped |
| StreamRuns.FeedToolStep | src/lib/anthropic.ts:338-340 | later fragments reach the block given to their tool |
| StreamRuns.ToolStep | src/lib/anthropic.ts:328-341 | the two together, for any fragment |
| StreamRuns.ToolsStep | src/lib/anthropic.ts:327-341 | and for all fragments of a chunk |
| StreamRuns.ChoiceStep | src/lib/anthropic.ts:313-344 | text and tools of one choice, in order |
| StreamRuns.ChunkStep | src/lib/anthropic.ts:282-345 | every chunk keeps the protocol; the client then holds its parts |
| StreamRuns.FeedStep | src/lib/anthropic.ts:269-345 | so does every sequence of chunks |
| StreamRuns.StopTools | src/lib/anthropic.ts:370-371 | end() stops each open tool block once |
| StreamRuns.CloseStep | src/lib/anthropic.ts:368-372 | end() leaves no block open |
| StreamRuns.FinishStep | src/lib/anthropic.ts:361-379 | end() brings the client to the end of the message, with an empty text block if there was no chunk |
| StreamMeaning.AcceptedExplained | src/lib/anthropic.ts:230-380 | what the protocol automaton accepts, said by counting starts and stops |
| StreamMeaning.LinesSplit | src/lib/anthropic.ts:269-279 | the lines of a text cut in two are the lines of the whole |
| StreamMeaning.PushTwo | src/lib/anthropic.ts:269-280 | two pushes are one push of both |
| StreamMeaning.Translate | src/lib/anthropic.ts:269-379 | a whole reply, in any pieces, is the run of its chunks |
| StreamMeaning.EndTwice | src/lib/anthropic.ts:360-379 | a second end() repeats the two terminal events, and breaks the protocol |
| StreamAgreement.TextKept | src/lib/anthropic.ts:317-325 | the text blocks together hold all text of the stream, in order |
| StreamAgreement.FieldsSum | src/lib/anthropic.ts:306-319 | content, stop reason and usage are sums over the chunks |
| StreamAgreement.RunEnds | src/lib/anthropic.ts:373-378 | the reply ends with the last finish reason, and the tokens last reported or counted from all text |
| StreamAgreement.OpenAIToAnthropic | src/lib/anthropic.ts:168-198 | the whole unstreamed reply: content with the arguments as they parse, or {} where they do not; stop reason, model, usage, and an id of its own or a new one |
| StreamAgreement.BuildContent | src/lib/anthropic.ts:173-183 | its content blocks in order, arguments parsed; a call without an id draws one |
| StreamAgreement.ContentSays | src/lib/anthropic.ts:173-183 | the text, where there is any, then a block for each call with its id, name and parsed arguments; never nothing |
| StreamAgreement.BuiltNext | src/lib/anthropic.ts:175-182 | each call adds its block, with its own id or the next of the supply |
| StreamAgreement.TextFirstParts | src/lib/anthropic.ts:282-345 | text before tools streams as one text block and then each call |
| StreamAgreement.ContentShown | src/lib/anthropic.ts:173-183 | which is what the unstreamed translation builds |
| StreamAgreement.EqualOrOtherKinds | src/lib/anthropic.ts:168-198 | where the two differ they differ in how many blocks there are or in the kind of one |
| StreamAgreement.LateText | src/lib/anthropic.ts:317-325 | text after a tool call opens a text block that is not the first |
| StreamAgreement.StopReasonAgrees | src/lib/anthropic.ts:343-376 | the stop reasons agree on every stream |
| StreamAgreement.StopSaid | src/lib/anthropic.ts:154-163 | a reply stops with max_tokens exactly when the last finish reason is length, with tool_use exactly when it is tool_calls |
| StreamAgreement.TokensAgree | src/lib/anthropic.ts:373-376 | the output tokens agree if and only if the stream reported some |
| StreamAgreement.TextAfterToolDiffers | src/lib/anthropic.ts:317-341 | a stream for which the two differ |
| KvStore.Kv.Touch | src/lib/kv/memory.ts:68-76 | dropping an expired entry when it is next touched changes nothing a command can see |
| KvStore.Kv.GetNum | src/lib/kv/memory.ts:110-112 | reads what has not expired |
| KvStore.Kv.IncrNum | src/lib/kv/memory.ts:166-176 | adds, keeping the deadline there was |
| KvStore.Kv.ExpireNum | src/lib/kv/memory.ts:192-198 | sets the deadline, of an entry that is there |
| KvStore.Kv.SetNumEx | src/lib/kv/memory.ts:123-146 | sets value and deadline together |
| KvStore.Kv.AddMember | src/lib/kv/memory.ts:209-218 | adds a member, keeping the deadline there was |
| KvStore.TickLive | src/lib/kv/memory.ts:68-76 | only entries within their deadline are ever seen |
| KvStore.LivesItsTime | src/lib/kv/memory.ts:68-76 | a value set for so many seconds is read till they have passed and not after; counting does not put that off |
| KvStore.AddsUp | src/lib/kv/memory.ts:68-112 | a counter starts at nothing, adds up, and lasts till it is given a deadline |
| KvStore.MembersLive | src/lib/kv/memory.ts:68-76 | so do the members of a set |
| Admission.RateCountScript | src/lib/rateWindow.ts:81-92 | the trailing count: this window's counter plus the weighted previous one |
| RateWindow.TrailingCount | src/lib/rateWindow.ts:80-94 | the trailing count is the counter of the window and, of the one before, the share of it still in range |
| RateWindow.WholeAtFirst | src/lib/rateWindow.ts:76-77 | at the first instant of a window the whole of both counters |
| RateWindow.NeverRises | src/lib/rateWindow.ts:76-94 | with nothing counted it never rises inside a window, nor falls below the counter of the window |
| Admission.AdmitScript | src/lib/admission.ts:68-103 | refuses without a change, or counts the request and its reservation with their deadlines |
| RateWindow.GrantedIfItFits | src/lib/admission.ts:81-103 | a request is admitted if and only if it and its tokens fit beside the trailing counts; it is then counted once in each counter, which live two windows more |
| RateWindow.FullBefore | src/lib/admission.ts:95 | at the first instant of a window a request is refused while the window before is full |
| Admission.RefundScript | src/lib/admission.ts:113-131 | takes back no more than is there, keeping the deadline |
| Admission.ChargeScript | src/lib/admission.ts:141-158 | adds the excess; a counter it makes gets a deadline |
| Admission.AdmitUserScript | src/lib/admission.ts:258-272 | a known user passes; a new one while there is room |
| Admission.ReconcileTpm | src/lib/admission.ts:223-252 | refund, charge or nothing, by the usage reported and the mode; an excess that is no safe integer is not charged |
| SelectKey.RefusedByOne | src/lib/selectKey.ts:37-52 | a candidate passes if and only if each of the three by itself would let it |
| SelectKey.Test | src/lib/selectKey.ts:180-202 | the reads leave no mark, and decide exactly whether the candidate passes |
| SelectKey.TryOne | src/lib/selectKey.ts:169-216 | a candidate that passes is reserved; any other is left as it was |
| SelectKey.SelectScript | src/lib/selectKey.ts:157-223 | the whole walk, in order, in one step |
| Gateways.PickFrame | src/lib/selectKey.ts:128-160 | a pick leaves every breaker key alone but its winner's probe slot |
| Gateways.Perform | src/lib/kv/memory.ts:68-112 | each step of a run is what its script does to the in-process store |
| AdmissionRuns.RoomInCurrent | src/lib/admission.ts:95-96 | room by the weighted count is room in the current counter |
| AdmissionRuns.PickKeeps | src/lib/selectKey.ts:90-224 | a pick keeps all limits |
| AdmissionRuns.UserRule | src/lib/admission.ts:258-295 | admitted if known or under the cap; then admitted again; a refusal changes nothing |
| AdmissionRuns.FreshDeadline | src/lib/admission.ts:98-101 | a counter written by admission outlives the following window if and only if its window had begun by the store's clock |
| AdmissionRuns.StepOutlives | src/lib/admission.ts:81-158 | each step keeps every counter's life if and only if it sets no deadline, or sets one in a window that has begun |
| AdmissionLedger.WholeTokens | src/lib/admission.ts:233-244 | refunds and charges are the reservation against the usage rounded up |
| AdmissionLedger.ClampNeverBites | src/lib/admission.ts:119-122 | inside a window the refund is never cut, where no refund of a request booked elsewhere took tokens off |
| AdmissionLedger.CountedKey | src/lib/admission.ts:81-85 | an admission adds its reservation to its window's token counter, whose deadline then covers the following window |
| AdmissionLedger.AskBalances | src/lib/admission.ts:81-85 | an admission adds just its reservation, whatever the gateway's clock says within the window |
| AdmissionLedger.PickBalances | src/lib/selectKey.ts:90-224 | so does a pick that goes to the key |
| AdmissionLedger.FinishBalances | src/lib/admission.ts:223-252 | settling replaces the reservation by the usage, or the lesser of the two, or leaves it when the figure is unusable |
| AdmissionLedger.SettledCounter | src/lib/admission.ts:223-252 | settling changes the counter by what it asks, but never below zero; the counter lives on |
| AdmissionLedger.ChangeIsCost | src/lib/admission.ts:223-252 | what settling a request asks of the counter is the change in what it counts for |
| AdmissionLedger.FiguresUsed | src/lib/admission.ts:218-244 | a figure that is no number, negative or above MAX_USAGE_TOKENS changes nothing; any other settles for its tokens rounded up |
| AdmissionLedger.ChangeBounds | src/lib/admission.ts:108-112 | no settlement asks back more than its reservation, nor adds more than its usage |
| AdmissionLedger.StrayBalances | src/lib/admission.ts:105-158 | a settlement of a request booked elsewhere moves the counter by no more than it asks |
| AdmissionLedger.StrayMoves | src/lib/admission.ts:105-158 | and moves it if and only if it adds tokens, or asks some back of a counter that has any |
| AdmissionLedger.BalancedExactly | src/lib/admission.ts:68-252 | where none comes in, the counter is exactly outstanding reservations plus what settled requests count for |
| AdmissionLedger.OtherBalances | src/lib/admission.ts:68-158 | steps about other keys, other windows, users or the breaker leave the counter alone |
| AdmissionLedger.ReleaseRestores | src/lib/admission.ts:210-233 | a full release puts the counter back if and only if the reservation was a whole number of at least one |
| Breaker.AcquireScript | src/lib/breaker.ts:76-90 | closed, open, or the one probe slot, by the asking gateway's clock |
| Breaker.TripScript | src/lib/breaker.ts:98-108 | the cooldown doubles to its cap; the open key holds the reopening time by the reporting gateway's clock; strikes are cleared |
| Breaker.ServerFailureScript | src/lib/breaker.ts:96-135 | a probe failure trips; others strike and trip at the threshold |
| Breaker.OnSuccess | src/lib/breaker.ts:154-156 | everything about the key is cleared but its refusals |
| Breaker.OnRateLimit | src/lib/breaker.ts:180-187 | a flat cooldown; strikes and escalation are left alone |
| Breaker.OnAuthFailure | src/lib/breaker.ts:196-201 | the window opens at the first refusal and is not renewed; a ban from the second on; nothing else but the probe slot changes |
| BreakerRuns.GuardStep | src/lib/breaker.ts:76-187 | each step but a success or rate limit keeps the key open till its reopening, while a report that trips it keeps up |
| BreakerRuns.SlotStep | src/lib/breaker.ts:76-90 | no step but a report releases a claimed slot before its time, and no pick takes it |
| BreakerRuns.SlotRun | src/lib/breaker.ts:76-90 | with no report a claimed slot stays claimed for its time |
| BreakerRuns.ClaimHolds | src/lib/selectKey.ts:140-142 | a claim, asked for or picked, finds the slot free and holds it for its whole time |
| BreakerRuns.CurveIsNext | src/lib/breaker.ts:63-66 | nextCooldown walks min(600, 10 * 2^(k-1)) |
| BreakerRuns.FailStores | src/lib/breaker.ts:96-135 | a failure does to the store what counting failures and trips says |
| BreakerRuns.OtherStores | src/lib/breaker.ts:154-201 | other steps leave strikes and escalation, or clear both |
| BreakerRecovery.ShutStep | src/lib/breaker.ts:76-187 | a step shuts a closed key if and only if it is a failure that trips it or a rate limit on it |
| BreakerRecovery.ShutRun | src/lib/breaker.ts:76-187 | a shut key keeps its reopening instant and its deadline till a report that matters |
| BreakerRecovery.PicksAreAnswered | src/lib/selectKey.ts:90-160 | picks are let through as the gate answers |
| BreakerRecovery.SlotTimeline | src/lib/breaker.ts:76-90 | a probe slot held to an instant is free from then on, and a free one stays free till it is claimed |
| BreakerRecovery.ClaimTimesOut | src/lib/breaker.ts:38-40 | the slot of a probe that never reports is free again when its time is out, and not before |
| BackupSchedule.ParseRepairs | src/lib/backupSchedule.ts:96-165 | whatever is stored reads as a schedule with no problem but for the destination, and with that exactly when a copy is asked for to no absolute path; a schedule reads back unchanged if and only if it had none but for the destination |
| BackupSchedule.ClampNearest | src/lib/backupSchedule.ts:107-110 | a number out of range is read as the nearest in range |
| BackupSchedule.DefaultsStand | src/lib/backupSchedule.ts:66-78 | what cannot be read is the default |
| BackupSchedule.PathsThatDo | src/lib/backupSchedule.ts:135-150 | a path will do if and only if, trimmed, it starts from the root, a host or a drive |
| BackupSchedule.DueAtItsTime | src/lib/backupSchedule.ts:168-188 | an instant is due if and only if it is at the hour and minute of the schedule, UTC, on a day of the cycle |
| BackupSchedule.OffByHandOnly | src/lib/backupSchedule.ts:217-222 | switched off, a schedule is run by hand only |
| BackupSchedule.RecordedLast | src/services/backupSchedule.service.ts:256-302 | the record is the instant of the last visit that made a run |
| BackupSchedule.LastDue | src/lib/backupSchedule.ts:176-188 | is the greatest due instant at or before now |
| BackupSchedule.OneCycleApart | src/lib/backupSchedule.ts:168-203 | the two differ by exactly everyDays days |
| BackupSchedule.PollRunsOnce | src/lib/backupSchedule.ts:217-222 | a poll runs if and only if the instant it is due for is not so reached |
| BackupSchedule.WindowGetsItsRun | src/lib/backupSchedule.ts:208-222 | a due window with a visit in it gets a run from the first visit from its instant on |
| BackupSchedule.OnlyFirstPollRuns | src/services/backupSchedule.service.ts:256-302 | with none set back, a poll in a window runs if and only if it is the first visit there and no earlier one is stamped past it |
| BackupSchedule.TwoRunsInOneWindow | src/services/backupSchedule.service.ts:256-302 | three visits on which the poll runs twice in one window |
| BackupSchedule.WindowMissed | src/services/backupSchedule.service.ts:256-302 | two visits that leave a polled window with no run |
| BackupNames.RecognisedIsGiven | src/lib/backupSchedule.ts:91-93 | the names recognised are exactly those given; a part file's is never one |
| BackupNames.NameShape | src/services/backup.service.ts:61-64 | every name given is recognised |
| BackupNames.NamesSortByTime | src/lib/backupSchedule.ts:227-231 | names sort as the times in them |
| BackupNames.YearLength | src/lib/backupSchedule.ts:227-231 | the calendar: 365 days in a year, 366 in a leap year |
| Retention.StandingCountsNewer | src/lib/backupSchedule.ts:234 | where a backup stands in the sorted list counts the newer ones |
| BackupDestination.BeginKeeps | src/lib/backupDestination.ts:94-109 | beginning under a clear name keeps every backup complete |
| BackupDestination.LandKeeps | src/lib/backupDestination.ts:94-142 | bytes that land touch no backup |
| BackupDestination.AbortClears | src/lib/backupDestination.ts:142-147 | an abort whose removal worked leaves no part file, and every other name as it was |
| BackupDestination.FirstErrorKept | src/lib/backupDestination.ts:117-122 | the first error of a stream is the one kept, over every run |
| BackupDestination.DestroyKeeps | src/lib/backupDestination.ts:121-127 | destroying a stream that may not be committed, or has no bytes to land, keeps every backup complete |
| BackupDestination.RenameKeeps | src/lib/backupDestination.ts:128-141 | a commit names a file only when all it was handed has landed without an error |
| BackupDestination.FinishedWhole | src/lib/backupDestination.ts:126-134 | a sink that finishes without an error has all it was handed in its part file |
| BackupDestination.StepKeeps | src/lib/backupDestination.ts:94-150 | every step keeps the invariant, a crash among them, begins and destructions being made with that care |
| BackupDestination.CommitRun | src/lib/backupDestination.ts:128-141 | a healthy sink can always be committed |
| BackupDestination.RivalCommits | src/lib/backupDestination.ts:94-141 | begun beside a healthy sink of its name, a stream can end up writing into a committed backup |
| BackupDestination.LateBytes | src/lib/backupDestination.ts:142-147 | begun over a part file an abort could not remove, a backup can be overwritten by the late bytes |
| BackupDestination.CutShort | src/lib/backupDestination.ts:126-141 | destroyed with bytes to land and then committed, a stream leaves a backup cut short |
| BackupDestination.DirectoryDestination.constructor | src/lib/backupDestination.ts:73-75 | the start meets the invariant |
| BackupDestination.DirectoryDestination.Begin | src/lib/backupDestination.ts:94-109 | opens and truncates the part file, or changes nothing |
| BackupDestination.DirectoryDestination.OnError | src/lib/backupDestination.ts:121-122 | the first error is kept |
| BackupDestination.DirectoryDestination.CommitEnds | src/lib/backupDestination.ts:126-127 | commit first ends the stream |
| BackupDestination.DirectoryDestination.CommitFinishes | src/lib/backupDestination.ts:128-141 | throws, or renames; then answers the size of all it was handed, unless the size cannot be read |
| BackupDestination.DirectoryDestination.AbortDestroys | src/lib/backupDestination.ts:142-144 | abort first destroys the stream |
| BackupDestination.DirectoryDestination.AbortCleans | src/lib/backupDestination.ts:142-147 | then removes the part file if it can |
| BackupDestination.DirectoryDestination.RemoveName | src/lib/backupDestination.ts:147-149 | removes that name only, and keeps the invariant |
| BackupDestination.DirectoryDestination.Sweep | src/services/backupCopy.service.ts:80-83 | removes exactly the prunable files whose removal works |
| CoreBoundary.FoundFits | scripts/lint/coreBoundary.ts:157-160 | a file found keeps the walk in order of distance |
| CoreBoundary.ChainIsPath | scripts/lint/coreBoundary.ts:136-140 | the chain of parents is a real import path from the entry |
| CoreBoundary.ChainTo | scripts/lint/coreBoundary.ts:136-140 | following parents ends, with that chain |
| CoreBoundary.WalkFinds | scripts/lint/coreBoundary.ts:142-165 | the files found are exactly those reachable, each by a shortest path |
| CoreBoundary.ViolationsOfFile | scripts/lint/coreBoundary.ts:144-164 | each file's violations are its problems, once each, with its one chain |
| CoreBoundary.OneFileMore | scripts/lint/coreBoundary.ts:144-164 | visiting a file adds its problems to the report, and to no other file's |
| CoreBoundary.NearestFirst | scripts/lint/coreBoundary.ts:123-126 | violations come nearest first |
| BoundaryReport.PackageNamed | scripts/lint/coreBoundary.ts:102-106 | packageName gives the one name a specifier names: its first part, or the first two of a scoped one |
| BoundaryReport.CodeBySuffix | scripts/lint/coreBoundary.ts:148 | code is exactly what ends in .ts or .tsx |
| BoundaryReport.PackagesAreExternal | scripts/lint/coreBoundary.ts:108-110 | a package is a specifier that is not relative, has no node: prefix, and names nothing built in |
| BoundaryReport.EdgesAre | scripts/lint/coreBoundary.ts:151-159 | a file loads another by a relative import that it reads |
| BoundaryReport.ProblemsAre | scripts/lint/coreBoundary.ts:144-164 | what is wrong with a file: it is forbidden, or an import of it is wrong |
| BoundaryReport.ScopedListed | scripts/lint/coreBoundary.ts:102-163 | a scoped package that is allowed is listed by both its parts, imported whole or by a path inside it |
| BulkInsert.InsertAllMerges | src/lib/bulkInsert.ts:97-109 | row by row, every row there is kept and every other id gets its first row |
| BulkInsert.RetryReaches | src/lib/bulkInsert.ts:20-24 | repeating a batch of which some rows landed reaches the table of one that never failed; repeating one that did not fail adds nothing |
| BulkInsert.MoreLanded | src/lib/bulkInsert.ts:20-24 | two failures leave what the one with more rows landed would |
| BulkInsert.OnlyThatCode | src/lib/bulkInsert.ts:56-58 | only the code P2002 is a duplicate; whatever else is thrown is thrown on |
| BulkInsert.Delegate.Create | src/lib/bulkInsert.ts:40-43 | one row, or a duplicate that changes nothing |
| BulkInsert.Delegate.CreateMany | src/lib/bulkInsert.ts:40-43 | an atomic batch, with duplicates skipped or refused |
| ClientWriter.NextTurn | src/lib/clientWriter.ts:54-92 | which waits are on, and whether the caller has gone, after one more turn |
| ClientWriter.WaitsExactly | src/lib/clientWriter.ts:62-73 | released or not: a refused write waits if and only if the sink emits, nothing was aborted, and no close or error came before the first release |
| ClientWriter.FitsWrite | src/lib/clientWriter.ts:68-89 | a write keeps listeners, waits and departure in step with what has happened, and waits exactly when it should |
| ClientWriter.FitsEvent | src/lib/clientWriter.ts:75-88 | so does an event once its listeners have been called |
| ClientWriter.FitsRelease | src/lib/clientWriter.ts:64-66 | so does a release |
| ClientWriter.ClientWriter.constructor | src/lib/clientWriter.ts:54-59 | the two departure listeners, on a sink that emits |
| ClientWriter.ClientWriter.Gone | src/lib/clientWriter.ts:62 | true exactly when the caller was seen to go |
| ClientWriter.ClientWriter.WriteChunk | src/lib/clientWriter.ts:68-89 | waits exactly when it should, listening for all four |
| ClientWriter.ClientWriter.Call | src/lib/clientWriter.ts:56-81 | a listener called takes itself, or its wait's four, off |
| ClientWriter.ClientWriter.Emit | src/lib/clientWriter.ts:75-88 | any of the four events ends every wait |
| ClientWriter.ClientWriter.ReleaseListeners | src/lib/clientWriter.ts:64-66 | drops the departure listeners, as often as it is called, and no wait |

## Left out

- Reading the rank file, base64, the piece pattern and js-tiktoken: a rank map and well-formed pieces are given. Assumed
  of them: ranks are distinct and below 2^21, every byte has one, no token is empty, and at most 5/8 of 2^30 pairs merge.
- That CUT_MARGIN keeps a sliced count above the exact one: a measurement, as the file says.
- HeapMerge.Merger.HeapMerge: pieces of 2^32 bytes and more, which no JavaScript string reaches.
- PairTable.PairTable.constructor: the table's columns are constants of the finished object, since nothing writes them after it is built.
- PairTable.TableBits: rounding in the product with 1.6; the model compares 8n with 5 * 2^bits exactly.
- BackupSchedule.ParseRepairs: a schedule here has whole numbers only, so the tests for whole numbers always pass.
- Retention.PrunableMeaning: a `keep` that is not whole, for which the source deletes nothing.
- JSON text: a payload parses to a chunk or to nothing by a given function; payloads that parse to `null` are not modelled.
- StreamAgreement.OpenAIToAnthropic: a parsed value is the text a given function returns for it; two spellings of one value are one where it says so.
- StreamAgreement.StreamedEqualsUnstreamed: message ids are drawn from a given supply.
- Requests in Anthropic's form (`translateMessage`, `anthropicToOpenAI`): a field-by-field mapping.
- Redis, Lua and network failures: a script is one atomic step of the in-process twin.
- Admission.RateCountScript: floating-point rounding of the weighted count; the model computes it exactly.
- KvStore.Kv.GetNum: one key never holds both a number and a set, and two keys of different kinds never have the same name.
- Deploying gateways that disagree on a key's limits: every step of a run has the same limits for a key.
- AdmissionLedger.WindowStaysBalanced: requests booked, or a first charge made, before their window has begun by the store's clock; the counter can expire early, and FreshDeadline says exactly when.
- That a rate limit never shortens an open period: it overwrites it.
- BackupSchedule.OneRunPerWindow: visits hold the lock, in the order they are recorded; a visit that finds the lock taken changes nothing and is not listed, and the lock itself is not part of this model. A run of visits keeps one schedule, while `tick` and `runNow` read it at each visit.
- BackupNames.NamesSortByAge: years past 9999, which ISO text writes with more digits.
- BackupDestination.AlwaysComplete: what happens once streams are begun or destroyed without that care, but for what SafeToBegin and SafeToDestroy say. A crash is of the process; the operating system keeps what it was given. Whoever else writes to the directory leaves backup names alone.
- CoreBoundary.CheckBoundary: parsing TypeScript and resolving paths; the graph of runtime imports is given, with an entry that may be missing.
- BulkInsert.CreateManyIgnoringDuplicates: the id is the only unique column, and no other writer inserts the same ids during a call.
- ClientWriter.ClientWriter.Emit: events come between calls, not inside the socket's own `write`.
- Chunk decoding, Fastify replies, the server, command line, dashboards and the encrypted backup format: other files,
  which add plumbing or tables.
