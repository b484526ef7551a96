# Models of the stateful engines of the Carrier repository

This project models the parts of the repository whose correctness is about whole runs, and proves what they
promise. `dafny verify dfyconfig.toml` checks everything.

| files | what they model |
|---|---|
| `BucketSeal.dfy`, `BucketSealRuns.dfy`, `BucketSealShape.dfy`, `BucketSealEnvelope.dfy`, `BucketSealHeight.dfy`, `BucketSealCounter.dfy`, `BucketSealInputs.dfy` | the summary tree: buffers that fill, seal into summaries and queue them one level up |
| `DeepMerge.dfy`, `ConfigIncludes.dfy`, `ConfigLayers.dfy` | the deep merge of TOML values and the resolution of config includes over a graph of files |
| `Cron.dfy`, `CronRuns.dfy`, `CronLate.dfy`, `CronHistory.dfy` | the cron scheduler and every interleaving of its ticks, fires and edits |
| `Acp.dfy`, `AcpRuns.dfy`, `AcpUpdates.dfy`, `AcpAdmission.dfy` | the prompt protocol between one dispatcher and its worker threads |
| `SseStream.dfy`, `SseSent.dfy`, `WsStream.dfy`, `Framing.dfy`, `FramingHeaders.dfy` | three incremental stream programs: the event-stream parser, the debounced WebSocket forwarder, the Content-Length framing |
| `Dedup.dfy` | the bounded, expiring duplicate filter |
| `FileTree.dfy`, `DirMerge.dfy` | directory trees and the recursive move of one into another |
| `TableCopy.dfy` | the batched, resumable copy of tables |
| `PathText.dfy`, `Manifest.dfy`, `ManifestLayer.dfy`, `ManifestPlacing.dfy`, `ManifestRoundTrip.dfy`, `ManifestInbound.dfy`, `ManifestHash.dfy` | the file manifest of a workspace, its collection and writing, and the text of its state id |

Each component has the same structure. A function on values says what one operation does, branch by branch. A
class or method in the form of the source (fields, loops, in-place updates) is proved equal to it. Lemmas then
prove what the component is for, over every input or every run, in terms of the inputs and the history of the run and
not of the functions they are about.

## What the proofs assume

- One step of a model is atomic: the seal of a buffer, the handling of one request by the dispatcher, a worker's reading
  of the cancel flag, its writing of a line, its setting of the completed flag.
- Ids that the source draws at random never repeat. Every reading of a clock is a parameter; clocks do not go back.
- The summariser, SHA-256, JSON and UTF-8 decoding, the calendar of cron expressions and the file system of the
  config loader are parameters: nothing is known of them beyond what a `requires` clause states.
- The summary tree is that of one owner and one tree. Its three constants are parameters; `Shipped` gives the
  values of `crates/memory/src/tree/types.rs:361-394` (10 children, 50000 tokens, 32 levels).

## What the proofs found

Where the code and its documentation disagree the model follows the code, and a lemma says exactly when they agree.

- `token_sum` is an `i64` in memory and a 32-bit column in storage (`crates/aginx-memory/src/pg/tree_store.rs:377`,
  `:620-623`), so the documented level-0 token gate can stay closed over any amount of text
  (`TokenGateAgreesExactlyWhen`, `TokenGateCanMiss`).
- Leaves enter summaries with score 0, so every summary's score is 0 (`ScoresAreZero`).
- `max_level` is written from the caller's copy of the tree; a stale copy can lower it (`StaleTreeLowersMaxLevel`), and
  the rows before the call tell when (`MaxLevelNotLowered`).
- Deep merge is not associative (`MergeAssociativeExactlyWhen`, `MergeNotAssociative`).
- Include resolution calls any file that is reached twice circular, also when two files share an include
  (`SharedIncludeIsRefused`, and exactly when it succeeds in `ResolveSucceedsExactlyWhen`).
- The comment at `crates/kernel/src/daemon.rs:1882-1885` says the in-flight guard is cleared on a panic. Nothing
  catches the panic, so the job is not fired again (`PanicStrandsJob`, `PanicLosesRecurringJob`) until the daemon
  restarts: the guard is not persisted (`crates/memory/src/cron_store.rs:23-27`), so a reload lowers it.
- An `At` job whose time is over fires at once, when it is added or enabled again, unless that time falls between
  the two clock readings of `initial_next_run` (`PastAtFiresAtOnceExactlyWhen`, `ReenabledFiresAtOnceExactlyWhen`);
  then it is accepted and not fired for 36500 days (`PastAtIsPutOff`, `ReenabledIsPutOff`, `PastAtIsLost`).
- The documentation of `session/cancel` promises the reply `cancelled`; a cancel after the last stream event is
  answered with the ordinary reply (`CancelledReplyExactlyWhen`, `CancelCanComeTooLate`).
- The far future of the debounce timer is 24 hours after the stream began. Once that is over, every further delta
  puts the timer of held text off again (`TimerIsPutOffExactlyWhen`, `HeldPastTheDay`); before, text is at most 100 ms
  late (`TextIsAtMostAMomentLate`).
- A resumed copy repeats the rows of `kv_history` that an interrupted attempt had committed
  (`UnguardedCopyExactlyWhen`, `HistoryCanDouble`).
- A regular file named exactly `__pycache__` is collected but refused on the way in (`RoundTrip`, `PycacheFileIsLost`).
- The filter on incoming files looks at the key as it is spelled: with a leading `./` a file outside the definition
  layer is written, which the documentation excludes (`LeavesLayerExactlyWhen`, `DotSlashIsWritten`).
- A path in which a colon, a hash and a line break in a row lie between two parts that are in order gives two
  manifests one hashed text, and no other path does (`SharesTextExactlyWhen`, `HiddenLineCollides`); between manifests
  without such paths the text is injective (`TextIsInjective`).

## Model

| member | source | states |
|---|---|---|
| BucketSeal.BucketSealEngine.AppendLeaf | crates/aginx-memory/src/bucket_seal.rs:54-75 | appending a leaf is one buffer append followed by an unforced cascade from level 0, with the same result and the same rows |
| BucketSeal.BucketSealEngine.AppendLeafDeferred | crates/aginx-memory/src/bucket_seal.rs:79-99 | the append alone, and the answer whether the level-0 gate is now passed |
| BucketSeal.BucketSealEngine.CascadeAllFrom | crates/aginx-memory/src/bucket_seal.rs:102-111 | a cascade from any level, forced or not |
| BucketSeal.BucketSealEngine.AppendTo | crates/aginx-memory/src/bucket_seal.rs:114-139 | nothing changes for an item already waiting; otherwise id, 64-bit saturating token sum and oldest time are updated, the sum passing through 32-bit storage |
| BucketSeal.BucketSealEngine.GetBuffer | crates/aginx-memory/src/bucket_seal.rs:141-158 | the stored row, or an empty one |
| BucketSeal.BucketSealEngine.CascadeSeals | crates/aginx-memory/src/bucket_seal.rs:160-187 | the loop over levels seals exactly where the recursive cascade does, for at most the depth limit, forcing only its first level |
| BucketSeal.BucketSealEngine.SealOneLevel | crates/aginx-memory/src/bucket_seal.rs:190-315 | all rows after one seal: the new node, the parent's row, the cleared buffer and `max_level`; or the refusal with no row written |
| BucketSeal.BucketSealEngine.HydrateLeafInputs | crates/aginx-memory/src/bucket_seal.rs:331-374 | the inputs of the chunks that exist, in order, with score 0; what they are in a run is `SummaryIsMadeOf` |
| BucketSeal.BucketSealEngine.HydrateSummaryInputs | crates/aginx-memory/src/bucket_seal.rs:377-406 | the inputs of the summaries that exist, in order |
| BucketSealRuns.LeavesAreConserved | crates/aginx-memory/src/bucket_seal.rs:54-315 | after any run of appends, deferred appends, forced and unforced cascades, with chunks coming and going, flattening the buffers from the top level down gives exactly the accepted leaves in append order |
| BucketSealRuns.RefusalChangesNothing | crates/aginx-memory/src/bucket_seal.rs:190-206 | in every reachable store a cascade fails if and only if it would seal level 0 and none of the waiting chunks exists, and then no row is changed |
| BucketSealRuns.RunKeepsInv | crates/aginx-memory/src/bucket_seal.rs:114-315 | every reachable store keeps levels, children, node envelopes, token sums and oldest times consistent |
| BucketSealRuns.CascadeChain | crates/aginx-memory/src/bucket_seal.rs:160-187 | a cascade is a chain of seals of consecutive levels that stops at the depth limit, a closed gate or a refusal |
| BucketSealInputs.SummaryIsMadeOf | crates/aginx-memory/src/bucket_seal.rs:190-374 | in every run, the inputs of a level-1 summary are exactly the chunks its waiting leaves had when it was sealed, in order, with their texts, tokens and times; those of a higher one are all its children; its token count is the summariser's for these inputs and this level, and its range is the one they span and contains every present chunk's |
| BucketSealInputs.CascadeReportsWhatItMade | crates/aginx-memory/src/bucket_seal.rs:160-187 | a cascade returns exactly the ids of the summaries it made, one to a level, lowest first |
| BucketSealShape.SummaryCoverage | crates/aginx-memory/src/bucket_seal.rs:160-187 | without forced seals a level-k summary covers at least F^(k-1) leaves |
| BucketSealShape.HeightIsLogarithmic | crates/aginx-memory/src/bucket_seal.rs:160-187 | m items waiting at level k need m F^(k-1) accepted leaves |
| BucketSealShape.SealsAreAmortised | crates/aginx-memory/src/bucket_seal.rs:62-187 | over n accepted leaves the seals S satisfy (F-1) S + waiting <= F n |
| BucketSealCounter.LeavesAreCounted | crates/aginx-memory/src/bucket_seal.rs:54-187 | after n small leaves the buffers hold the digits of n in base F, and the next append seals exactly as many levels as the increment of n carries |
| BucketSealCounter.OneAppendCanSealAll | crates/aginx-memory/src/bucket_seal.rs:160-187 | for every fanout and every height up to the depth limit, a run without forced seals whose last append alone seals that many levels |
| BucketSealShape.NoBufferLeftFull | crates/aginx-memory/src/bucket_seal.rs:160-187 | below F^D leaves every summary above level 1 has exactly F children, no buffer above level 0 passes its gate, and none at level 0 after a successful append |
| BucketSealEnvelope.SummariesEnvelopDescendants | crates/aginx-memory/src/bucket_seal.rs:208-223 | in every reachable store a summary's time range contains everything hydrated below it at any depth, its ends are taken by its own inputs, and its score bounds theirs |
| BucketSealEnvelope.ScoresAreZero | crates/aginx-memory/src/bucket_seal.rs:216-223 | no summary has a score other than 0 |
| BucketSealEnvelope.BufferTotals | crates/aginx-memory/src/bucket_seal.rs:130-296 | the level-0 row describes exactly the newest accepted leaves, a higher row its waiting summaries; the stored sum is the true one if and only if that is below 2^31 |
| BucketSealEnvelope.TokenGateAgreesExactlyWhen | crates/aginx-memory/src/bucket_seal.rs:411-420 | the stored sum decides the level-0 gate as the true sum would if and only if the stated condition on the waiting tokens holds |
| BucketSealEnvelope.TokenGateCanMiss | crates/aginx-memory/src/bucket_seal.rs:411-420 | with the shipped constants a leaf of 2^31 tokens is not sealed |
| BucketSealHeight.RiseIsSealed | crates/aginx-memory/src/bucket_seal.rs:160-187 | in every reachable store the number of levels a cascade seals can be read off the rows before the call |
| BucketSealHeight.MaxLevelNotLowered | crates/aginx-memory/src/bucket_seal.rs:298-303 | what a cascade writes to `max_level`, and that it does not lower it if and only if, from the rows before the call, nothing will be sealed, the caller's copy reaches the new top, or the stored value does not exceed it; never when the copy is at least the stored value |
| BucketSealHeight.StaleTreeLowersMaxLevel | crates/aginx-memory/src/bucket_seal.rs:298-303 | a run from the empty tree in which a stale copy lowers the stored height from 2 to 1 |
| BucketSealHeight.MaxLevelIsHighestSummary | crates/aginx-memory/src/bucket_seal.rs:298-303 | when every caller passes a tree it has just read, `max_level` is the level of the highest summary |
| DeepMerge.DeepMergeToml | crates/kernel/src/config.rs:238-253 | the loop that updates the base in place computes the merge |
| DeepMerge.MergeByPath | crates/kernel/src/config.rs:238-253 | at every path the overlay decides wherever it has a value that is no table, keys of tables are united, and the base shows through elsewhere |
| DeepMerge.HeadsDetermine | crates/kernel/src/config.rs:238-253 | two values that look the same at every path are equal, so the path specification determines the merge |
| DeepMerge.EmptyTableIsNeutral | crates/kernel/src/config.rs:238-253 | the empty table is neutral on the left, and on the right exactly for tables |
| DeepMerge.MergeAbsorbs | crates/kernel/src/config.rs:238-253 | a merge leaves the overlay unchanged if and only if the base has no key it lacks, at any depth |
| DeepMerge.MergeTwice | crates/kernel/src/config.rs:238-253 | merging an overlay a second time changes nothing |
| DeepMerge.MergeAssociativeExactlyWhen | crates/kernel/src/config.rs:238-253 | merging is associative on three values if and only if no table of the first with keys of its own is hidden by a plain value of the second and met by a table of the third |
| DeepMerge.MergeNotAssociative | crates/kernel/src/config.rs:238-253 | three values for which grouping matters |
| ConfigIncludes.ResolveConfigIncludes | crates/kernel/src/config.rs:117-234 | the recursion with its visited set computes the resolution, and on an error the root value is what it was |
| ConfigIncludes.ResolveSucceedsExactlyWhen | crates/kernel/src/config.rs:117-234 | resolution succeeds if and only if the includes unfold into a forest within the depth limit whose files exist, parse, lie inside their directory and are each reached once; it ends on every graph |
| ConfigIncludes.ResolveLayersIncludes | crates/kernel/src/config.rs:150-233 | a success loads each file once and is the left-to-right layering of the resolved includes with the including file on top |
| ConfigIncludes.VisitedGrows | crates/kernel/src/config.rs:117-234 | the visited set only grows, also through errors |
| ConfigIncludes.RepeatedIncludeIsRefused | crates/kernel/src/config.rs:186-191 | an include of a file visited before fails the whole resolution |
| ConfigIncludes.SharedIncludeIsRefused | crates/kernel/src/config.rs:186-191 | a graph without a cycle, in which two included files share an include, is refused as circular |
| ConfigLayers.ResolvedIsSeen | crates/kernel/src/config.rs:150-233 | at every path the result shows what the including file shows if it decides there, else the last include that does, and so on down, keys of tables united; nothing is lost but the key `include` |
| ConfigLayers.OwnSettingsStand | crates/kernel/src/config.rs:223-233 | with includes, the result has no `include`; every other key of the including file is there, a plain value as it is and a table with all its keys |
| ConfigLayers.IncludesAre | crates/kernel/src/config.rs:129-147 | the includes are the strings of the `include` array, all of them and in order |
| ConfigLayers.LocatedExactlyWhen | crates/kernel/src/config.rs:150-184 | an include is located if and only if its text is relative and never goes up, it can be resolved, and it lies below the directory of the including file |
| ConfigLayers.RefusedForTheFirstFault | crates/kernel/src/config.rs:150-208 | an include that is not taken is refused for the first thing wrong with its text, place or content |
| ConfigLayers.TooDeepIsRefused | crates/kernel/src/config.rs:123-127 | below the tenth nesting nothing is resolved |
| Cron.CronScheduler.AddJob | crates/kernel/src/cron.rs:129-155 | the limits, the validation, the first fire time and the stored job |
| Cron.CronScheduler.RemoveJob | crates/kernel/src/cron.rs:158-163 | the job is returned and gone, or the error with nothing changed |
| Cron.CronScheduler.RemoveAgentJobs | crates/kernel/src/cron.rs:213-228 | exactly the agent's jobs are gone, and their number is returned |
| Cron.CronScheduler.SetEnabled | crates/kernel/src/cron.rs:167-179 | enabling clears the errors and computes a new fire time; disabling only switches off |
| Cron.CronScheduler.DueJobs | crates/kernel/src/cron.rs:240-268 | the due jobs once each, as they stand after their fire time was advanced and their guard raised; a due job still running is advanced and skipped |
| Cron.CronScheduler.ClearRunning | crates/kernel/src/cron.rs:273-280 | only the guard of the job goes down |
| Cron.CronScheduler.RecordSuccess | crates/kernel/src/cron.rs:288-305 | a one-shot job is removed, any other has its errors reset |
| Cron.CronScheduler.RecordFailure | crates/kernel/src/cron.rs:311-338 | the error count and the next time, and the job is switched off at the fifth error in a row |
| CronRuns.GuardMeansInFlight | crates/kernel/src/cron.rs:240-280 | in every interleaving a job has at most one fire under way, and its guard is up exactly then or after a fire that panicked |
| CronRuns.FiresAreApart | crates/kernel/src/cron.rs:240-338 | two fires of one job: it is not one-shot, an `Every` job has waited its interval, an `At` job was re-enabled in between or 36500 days passed |
| CronRuns.NothingDueAfterTick | crates/kernel/src/cron.rs:240-268 | after a tick no enabled job is still due |
| CronRuns.EnabledJobsHaveFewErrors | crates/kernel/src/cron.rs:311-338 | an enabled job has fewer than 5 errors in a row |
| CronRuns.TickFiresExactly | crates/kernel/src/cron.rs:240-268 | a tick starts a job if and only if it is due, not under way and not stranded, and moves its slot on whenever it is due |
| CronRuns.NextRunIsLater | crates/kernel/src/cron.rs:383-402 | the next fire time lies strictly after the given time |
| CronHistory.FiresWhenItsTimeHasCome | crates/kernel/src/cron.rs:240-268 | in every run a tick fires a job if and only if it is on, the time of its schedule has come, and no fire of it is under way or panicked; for a cron expression that is the time the calendar gave for the last reading of the clock plus one second, or one hour after the reading when it had none |
| CronHistory.JobIsItsHistory | crates/kernel/src/cron.rs:129-338 | in every run a job is listed if and only if it was added within the limits and neither removed nor finished as one-shot; its slot is the time of its schedule from the last reading, a success or an enabling clears its errors, and only its owner or a fifth error in a row switches it off |
| CronHistory.NextRunIsTime | crates/kernel/src/cron.rs:369-460 | the next time of a schedule is its own time or 36500 days later, the interval later, or what the calendar says one second after the reading, one hour after it when the calendar says nothing |
| CronHistory.RefusedForTheFirstFault | crates/kernel/src/cron.rs:129-155 | a job that is not accepted is refused for the first of the limits and checks that it fails |
| CronRuns.PanicStrandsJob | crates/kernel/src/daemon.rs:1876-1888 | after a fire that panicked no later step of the running scheduler fires the job again |
| CronRuns.PanicLosesRecurringJob | crates/kernel/src/daemon.rs:1876-1888 | a run in which an enabled recurring job is lost in this way |
| CronLate.PastAtFiresAtOnceExactlyWhen | crates/kernel/src/cron.rs:369-374 | in any state, a tick at or after both the time of an accepted `At` job and its registration fires it if and only if that time did not pass between the two clock readings |
| CronLate.PastAtIsPutOff | crates/kernel/src/cron.rs:129-155 | when it did, the job is accepted in any state with room for it, and in every run from there it is not fired for 36500 days unless it is enabled again |
| CronLate.ReenabledFiresAtOnceExactlyWhen | crates/kernel/src/cron.rs:167-179 | in every run, a tick at or after both the time of an `At` job and its re-enabling fires it if and only if no fire of it is under way or panicked and that time did not pass between the two clock readings of the re-enabling |
| CronLate.ReenabledIsPutOff | crates/kernel/src/cron.rs:353-374 | when it did, in every run from there the job is not fired for 36500 days unless it is enabled once more |
| CronLate.PastAtIsLost | crates/kernel/src/cron.rs:369-374 | a job for which this happens |
| Acp.Connection.HandleRequest | crates/cli/src/acp.rs:125-183 | what the dispatcher does with one request: reply, refusal, new session, accepted prompt or raised flag |
| Acp.Connection.SessionPrompt | crates/cli/src/acp.rs:307-505 | a prompt is refused while the session's last one is not completed, and otherwise starts a worker |
| Acp.Connection.SessionCancel | crates/cli/src/acp.rs:631-648 | only the flag of the session's prompt is raised, and nothing is written |
| Acp.Connection.WorkerEvent | crates/cli/src/acp.rs:440-468 | one turn of the worker's loop: a raised flag ends it as cancelled, otherwise the event is recorded and its update is to be written |
| Acp.Connection.WorkerUpdate | crates/cli/src/acp.rs:451-459 | the update of the event taken is written for the prompt's session |
| Acp.Connection.MapStreamEvent | crates/cli/src/acp.rs:785-874 | the update shown for an event, and the pending-call list updated in place |
| Acp.PositionFinds | crates/cli/src/acp.rs:801-846 | the searches in the pending list find the oldest call with the id or the name, and find nothing only when there is none |
| AcpRuns.OneLivePrompt | crates/cli/src/acp.rs:347-356 | in every interleaving two prompts of a session are never both under way, and the one that is is the one a cancel reaches |
| AcpRuns.ReplyBeforeNextPrompt | crates/cli/src/acp.rs:394-497 | when a prompt is accepted, every earlier prompt of its session has had its one reply |
| AcpRuns.ExactlyOneReply | crates/cli/src/acp.rs:125-505 | every request gets one reply, a cancel none, an accepted prompt its one when its worker has finished |
| AcpRuns.CancelledReplyExactlyWhen | crates/cli/src/acp.rs:394-497 | a prompt is answered `cancelled` if and only if its worker took an event after a cancel for that very prompt |
| AcpRuns.CancelCanComeTooLate | crates/cli/src/acp.rs:627-648 | a run in which a processed cancel is answered `end_turn` |
| AcpRuns.PendingFollows | crates/cli/src/acp.rs:440-468 | in every interleaving the pending list of a prompt is what the events its worker has recorded make of it, in their order, whatever other workers and the dispatcher do |
| AcpRuns.PendingIsStartedUnresolved | crates/cli/src/acp.rs:801-846 | in every interleaving in which results name started calls, the pending list of a prompt is its started and unresolved calls in start order |
| AcpUpdates.EventsAreShown | crates/cli/src/acp.rs:440-468 | in every interleaving, the updates written for a prompt, with the one about to be written, are those of the events its worker has recorded, one for one and in order: text and thoughts as they are, tool starts, ends and results |
| AcpUpdates.TextIsShown | crates/cli/src/acp.rs:451-459 | in every interleaving, the text shown for a prompt, with the piece about to be written, is the concatenation of the recorded text deltas, which is the text that is kept; likewise for the thoughts |
| AcpUpdates.EventShows | crates/cli/src/acp.rs:785-874 | what each kind of event shows, and that a result names the pending call with its id, else the oldest of its name, and takes exactly that one out |
| AcpUpdates.ReplyNamesTheReason | crates/cli/src/acp.rs:440-497 | in every interleaving, the reply of a prompt is `cancelled` after a cancel, an error when the stream could not be started, and otherwise names the reason the model gave last, `end_turn` when it gave none |
| AcpAdmission.PromptIsAcceptedExactlyWhen | crates/cli/src/acp.rs:307-410 | in every run, a prompt is accepted if and only if the connection is initialized, the session open, none of its prompts under way, the text of its blocks not empty and the message stored; it starts with exactly that text, and a refusal changes nothing else |
| AcpAdmission.MessageIs | crates/cli/src/acp.rs:358-370 | the message is the text blocks and the resources with text, all of them and in order, joined by line breaks |
| AcpAdmission.CancelReaches | crates/cli/src/acp.rs:631-648 | in every run, a cancel raises the flag of its session's prompt under way and of no other |
| AcpAdmission.RequestIsAnswered | crates/cli/src/acp.rs:125-183 | in every run, the answer to every other request, by what was sent before it; no prompt changes |
| SseStream.ParseFrame | desktop/src/main.rs:144-152 | the trimmed values of the last `event:` and `data:` lines of a frame |
| SseStream.HandleFrame | desktop/src/main.rs:144-202 | the event a frame emits, the accumulated text, and whether it stops the loop |
| SseStream.ChatStream | desktop/src/main.rs:132-215 | whatever the chunks, events and outcome are those of the text they make up; between chunks the buffer is the text after the last complete frame |
| SseStream.SplitIsUnique | desktop/src/main.rs:142-143 | cutting at the first blank line is the only way to cut a text into frames and a rest without one |
| SseStream.SplitCuts | desktop/src/main.rs:142-143 | frames and rest make up the text, every frame ends with its only blank line, and the rest has none |
| SseStream.SplitAppend | desktop/src/main.rs:139-143 | cutting a text that arrives in two parts is cutting the first and then its rest with the second |
| SseStream.FeedAllParsesText | desktop/src/main.rs:139-204 | draining chunk by chunk has handled exactly the frames of the text received and holds exactly what follows them |
| SseStream.ChunkingIsInvisible | desktop/src/main.rs:139-204 | any two ways of receiving the same text emit the same events, accumulate the same text, stop alike and carry the same buffer, which never holds a complete frame |
| SseStream.StopsEarly | desktop/src/main.rs:132-215 | after the stopping frame neither the rest of the buffer nor the unread chunks would have changed anything |
| SseStream.ClosingTextIsTheDeltas | desktop/src/main.rs:158-215 | a finished stream has one closing event, at the end, whose text is the deltas shown before it; a broken one has none |
| SseSent.SentIsShown | desktop/src/main.rs:132-215 | whatever the chunks, text made of well-formed frames for a list of events emits exactly those events, in order, and then the interruption with the text of the deltas |
| SseSent.ClosedIsShown | desktop/src/main.rs:195-202 | with a closing frame behind them, exactly those events and the end with the whole text are emitted, whatever follows |
| WsStream.Socket.FlushTextBuffer | crates/api/src/ws.rs:1137-1154 | a text buffer goes out as one frame and is empty afterwards, whether or not the send succeeded; an empty one sends nothing |
| WsStream.Socket.StreamEventsToWs | crates/api/src/ws.rs:645-787 | the loop over events and timer firings sends and returns what the step-by-step model does |
| WsStream.DebouncingOnlyCutsText | crates/api/src/ws.rs:658-758 | in every interleaving the frames sent and the text held back are those of undebounced forwarding but for where text is cut: no text is lost, repeated or moved past another frame |
| WsStream.AllTextIsSent | crates/api/src/ws.rs:668-676 | after the end of the stream nothing is held back |
| WsStream.NoEmptyText | crates/api/src/ws.rs:1137-1154 | no text frame is ever empty, and what the connection had carried before stays as it was |
| WsStream.StreamedTextIsTheResponse | crates/api/src/ws.rs:688-692 | the text kept for the final response is the text on the wire and the text held back |
| WsStream.AnswerIsWhatWasHeard | crates/api/src/ws.rs:760-786 | the returned text is that of the deltas, or the thinking when there was none, and silence means neither came before a completed answer |
| WsStream.MapsAsDocumented | crates/api/src/ws.rs:1041-1130 | what each event that is no text sends, by the verbosity: the mapping that the undebounced forwarding of `DebouncingOnlyCutsText` is stated with |
| WsStream.BufferStaysShort | crates/api/src/ws.rs:690-698 | between events the buffer is below 200 bytes |
| WsStream.TextIsAtMostAMomentLate | crates/api/src/ws.rs:698-704 | until the timer comes due every delta older than 100 ms is on the wire, unless text is held with a timer set for the far future or later, which cannot be in the first 24 hours; held text always has a timer, set at most 100 ms after the last input |
| WsStream.TimerIsPutOffExactlyWhen | crates/api/src/ws.rs:693-704 | in any run, a further delta puts off the timer of held text if and only if it is set for the far future or later and time has passed since the last delta; then, and only then, text that was in time no longer is |
| WsStream.HeldPastTheDay | crates/api/src/ws.rs:655-704 | a stream that has one character every 99 ms after its first 24 hours: up to 199 are held back, the first for almost 20 seconds, and no timer comes due |
| Framing.Stream.ReadMessage | crates/cli/src/mcp.rs:163-213 | header loop, size checks, drain and body read compute the read of one message and leave the rest of the input |
| Framing.Stream.Drain | crates/cli/src/mcp.rs:189-200 | draining by chunks drops the stated length, or all there is |
| Framing.Stream.Serve | crates/cli/src/mcp.rs:123-135 | the server loop handles messages until the first read that is none |
| Framing.Stream.WriteMessage | crates/cli/src/mcp.rs:217-226 | one frame is appended to the output |
| Framing.FrameReadsBack | crates/cli/src/mcp.rs:163-226 | whatever follows a frame, its body is read if it has 1 byte to 10 MB, with nothing past it touched; otherwise no message is read |
| Framing.FramingRoundTrip | crates/cli/src/mcp.rs:163-226 | messages of 1 byte to 10 MB come back in order, consuming exactly the bytes written |
| Framing.ServedIsWritten | crates/cli/src/mcp.rs:123-226 | of any messages written, the server takes exactly those before the first that cannot be carried |
| Framing.BrokenStreamServesPrefix | crates/cli/src/mcp.rs:123-226 | wherever the stream of written messages breaks off, the server takes exactly those before the first that cannot be carried whose frames are complete |
| FramingHeaders.StatedLengthIsRead | crates/cli/src/mcp.rs:163-213 | whatever the header lines are, their white space and line ends included, the last stated length decides how many bytes are the message, are dropped, or that there is none |
| FramingHeaders.BrokenHeadersAreRefused | crates/cli/src/mcp.rs:165-187 | header lines without a blank one behind them are the end of the input; a line that is no text is a failure right behind it |
| FramingHeaders.LengthsAreNumbers | crates/cli/src/mcp.rs:178-183 | a length is read exactly from the texts of the numbers below 2^64 |
| Framing.DecimalText | crates/cli/src/mcp.rs:217-219 | the decimal text of a length consists of digits and reads back as it |
| Dedup.InboundDedup.Check | crates/channels-common/src/lib.rs:50-77 | a recent key is a duplicate and changes nothing; otherwise expired entries go, the key is recorded and the oldest entries over the capacity are dropped |
| Dedup.TableIsBounded | crates/channels-common/src/lib.rs:62-75 | after any calls the table holds at most `max_entries` |
| Dedup.EntriesWereAccepted | crates/channels-common/src/lib.rs:60-61 | an entry is the time of the latest acceptance of its key |
| Dedup.DuplicateMeansRecentlyAccepted | crates/channels-common/src/lib.rs:53-57 | "duplicate" is answered only if the key was accepted less than `ttl` earlier |
| Dedup.ForgottenOnlyForNewer | crates/channels-common/src/lib.rs:62-75 | a key that still counts is forgotten only when `max_entries` other keys were accepted no earlier than it |
| Dedup.CheckAgrees | crates/channels-common/src/lib.rs:50-77 | a call keeps the table in agreement with an unbounded one if and only if at most `max_entries` keys count at that time |
| Dedup.AnswersCoincide | crates/channels-common/src/lib.rs:50-77 | while at most `max_entries` distinct keys are accepted per window, all answers are those of unbounded deduplication |
| Dedup.OverflowShows | crates/channels-common/src/lib.rs:62-75 | at the first window that does not fit, some key exists for which the answers differ |
| DirMerge.MoveDirContents | crates/api/src/migration.rs:615-657 | the loop over the entries, with its removals and creations, leaves the source and the target as the merge says |
| DirMerge.MergeByPath | crates/api/src/migration.rs:615-657 | file by file: target files stay, a source file moves if and only if its target path is free, every other one stays in place, nothing else appears |
| DirMerge.FreeMeaning | crates/api/src/migration.rs:630-655 | a path is free exactly when nothing is at it and no ancestor of it is a file |
| DirMerge.NoFileIsLost | crates/api/src/migration.rs:615-657 | every file of either tree is found, unchanged, in the target or in what is left of the source |
| DirMerge.SecondRunMovesNothing | crates/api/src/migration.rs:615-657 | a second run changes nothing |
| DirMerge.MovedWhole | crates/api/src/migration.rs:645-652 | a directory moved to a free place leaves nothing behind |
| TableCopy.Migration.Run | crates/aginx-memory/src/migrate.rs:18-64 | the tables in order, up to the first that does not come to its end |
| TableCopy.Migration.MigrateTable | crates/aginx-memory/src/migrate.rs:27-51 | a recorded table is skipped; another is copied and, if the copy came to its end, recorded |
| TableCopy.Migration.CopyRows | crates/aginx-memory/src/migrate.rs:147-174 | the row loop with a commit every 1000 rows; what was not committed is gone |
| TableCopy.CopyCommitsPrefix | crates/aginx-memory/src/migrate.rs:147-174 | an attempt cut anywhere commits a whole number of batches, or all the rows |
| TableCopy.AttemptCommitsExactly | crates/aginx-memory/src/migrate.rs:147-174 | an attempt comes to its end if and only if it can execute the statements for all rows and a commit after every 1000; otherwise it leaves exactly the batches it could pay for |
| TableCopy.OneRowPerKey | crates/aginx-memory/src/migrate.rs:153-158 | a guarded copy holds exactly one row per source key, the first one that has it |
| TableCopy.CopyAgain | crates/aginx-memory/src/migrate.rs:147-174 | copying one prefix after another gives the copy of the longer one |
| TableCopy.RecordedTablesAreFrozen | crates/aginx-memory/src/migrate.rs:27-51 | after any runs, a recorded table is never written again, by any run of any source |
| TableCopy.ResumedCopyIsComplete | crates/aginx-memory/src/migrate.rs:18-174 | after any number of runs cut anywhere, each listing the rows in its own order, a run that comes to its end leaves in every guarded table exactly one row per source key, a row of the source |
| TableCopy.ResumedInOrderIsTheCopy | crates/aginx-memory/src/migrate.rs:18-174 | when all runs list the rows in one order, the table is the one a single uninterrupted copy would have left |
| TableCopy.UnguardedCopyExactlyWhen | crates/aginx-memory/src/migrate.rs:215-238 | a finished copy without a conflict clause is exact if and only if no earlier attempt had committed a row |
| TableCopy.HistoryCanDouble | crates/aginx-memory/src/migrate.rs:215-238 | two runs after which a row of `kv_history` is there twice |
| Manifest.WalkCollect | crates/clone/src/manifest.rs:118-164 | the recursive walk adds exactly the selected files below a directory, under their keys |
| Manifest.CollectDefinitionFiles | crates/clone/src/manifest.rs:95-103 | every selected file has a key, and every key the content of a selected file under it |
| Manifest.Workspace.WriteFilesToWorkspace | crates/clone/src/manifest.rs:316-377 | the files in key order, up to the first error |
| Manifest.Workspace.WriteOneFile | crates/clone/src/manifest.rs:331-374 | traversal check and filters, and for what passes them the write, with the workspace each outcome leaves |
| Manifest.Workspace.WriteAtomically | crates/clone/src/manifest.rs:359-374 | directories, temporary file and rename, with the workspace each outcome leaves |
| Manifest.MkDirsByPath | crates/clone/src/manifest.rs:359-361 | creating a directory adds exactly its missing ancestors |
| Manifest.MkDirsWorks | crates/clone/src/manifest.rs:359-361 | it fails only where a file is in the way |
| Manifest.SetByPath | crates/clone/src/manifest.rs:362-373 | putting or removing a file changes what is at its path and below, and nothing else |
| ManifestRoundTrip.PlaceFileByPath | crates/clone/src/manifest.rs:359-373 | a write to a free place puts the file there with its ancestors, leaves no temporary file, and changes nothing else |
| ManifestRoundTrip.PicksMeaning | crates/clone/src/manifest.rs:118-164 | the walk selects a file exactly when every name on its path and its top component pass the filters |
| ManifestRoundTrip.CollectedMap | crates/clone/src/manifest.rs:95-103 | with ordinary names the collected map is determined: one key per selected file, with its content |
| ManifestRoundTrip.InboundAcceptsTheWalk | crates/clone/src/manifest.rs:331-352 | a selected file is accepted on the way in unless it is itself named `__pycache__` |
| ManifestLayer.SelectedExactlyWhen | crates/clone/src/manifest.rs:14-50 | a file is selected if and only if no name on its path is an artifact and the first component of its key is none of the thirteen runtime names, written out, no test name and no backup name |
| ManifestLayer.KeysAreInLayer | crates/clone/src/manifest.rs:95-164 | no collected key, and so no key of a manifest, begins with such a name |
| ManifestLayer.IncomingExactlyWhen | crates/clone/src/manifest.rs:331-352 | what becomes of every incoming key: an error, skipped with a warning for such a name at its top or for bytecode, or placed; a top name that is none of them is never refused for it |
| ManifestPlacing.PlaceExactlyWhen | crates/clone/src/manifest.rs:353-374 | when a write succeeds, and for every outcome what the tree holds afterwards at every path |
| ManifestPlacing.WritesStopAtTheFirstError | crates/clone/src/manifest.rs:316-377 | the files before the first error are written in order, none after it, and the warnings are reported only when there is none |
| ManifestPlacing.NamesItsParts | crates/clone/src/manifest.rs:353-361 | the path of a key is its parts, in order, but for empty ones and single dots |
| ManifestRoundTrip.RoundTrip | crates/clone/src/manifest.rs:95-377 | collected, written into an empty workspace and collected again, the files come back, without a warning, if and only if none is named `__pycache__`; all others always do |
| ManifestRoundTrip.PycacheFileIsLost | crates/clone/src/manifest.rs:143-148 | a workspace with a regular file named `__pycache__`, which is collected and does not come back |
| ManifestInbound.LeavesLayerExactlyWhen | crates/clone/src/manifest.rs:331-352 | of the keys that name a path outside the definition layer, exactly those spelled with a leading `.` component (not going up, not bytecode) are let through to be written; all others leave the workspace as it is, with a warning or an error |
| ManifestInbound.DotSlashIsWritten | crates/clone/src/manifest.rs:308-352 | `./agent.toml` is written without a warning where `agent.toml` is refused |
| ManifestHash.HashManifest | crates/clone/src/manifest.rs:167-176 | the loop hashes the `path:hash` lines in key order |
| PathText.LessIsFirstDifference | crates/clone/src/manifest.rs:167-176 | the order of the keys is that of their first difference |
| ManifestHash.BuildManifest | crates/clone/src/manifest.rs:77-86 | the manifest is the hashes of what a walk selects, with the hash of its text |
| ManifestHash.TextIsInjective | crates/clone/src/manifest.rs:167-176 | two manifests hash the same text if and only if they are equal, as long as no path contains a colon, a hash and a line break in a row between two parts that are in order |
| ManifestHash.SharesTextExactlyWhen | crates/clone/src/manifest.rs:167-176 | the manifest of one file shares its text with some other manifest if and only if the path of that file contains them so |
| ManifestHash.HiddenLineCollides | crates/clone/src/manifest.rs:167-176 | the two manifests that share a text, whatever the hashes |

## Left out

- PostgreSQL, SQLite, HTTP and file I/O, their errors, retries and transactions: stores are maps, a seal is atomic, a send either succeeds or fails.
- The concurrency of callers on one tree: operations on a summary tree come one after the other.
- BucketSeal.BucketSealEngine.SealOneLevel: does not model the content file, the topics and entities of a summary, nor the root id and seal time of the tree.
- Loading and saving cron jobs, editing a job in place, and the truncation of stored error texts: the run starts from an empty scheduler.
- The delivery of what a cron job produced, and the audit record: a fire ends in success, failure, removal or a panic.
- Acp.Connection.HandleRequest: does not model the replay of history by `session/load`, nor the content of the replies of the query methods.
- The JSON text of ACP messages, and the titles and kinds of tools.
- A handler of the dispatcher is one step, although it reads a flag and then writes a line or the other flag.
- DirMerge.MoveDirContents: directory trees are values, so links and permissions are not captured. Where a rename fails the source copies and removes, which has the same effect on a tree; that both fail, or the removal alone, is not modelled.
- Manifest.Workspace.WriteFilesToWorkspace: symbolic links do not exist in the model, so the check against leaving the workspace through one is not modelled.
- Manifest.Workspace.WriteOneFile: the same holds for each single file.
- ManifestRoundTrip.RoundTrip: names with a backslash are excluded, because the collected key turns it into a slash and the file is written into another directory.
- TableCopy.ResumedCopyIsComplete: the source rows do not change between runs; the decoding of columns is not modelled.
- The per-address connection counter, the sliding message window and the removal of thinking tags in the WebSocket handler.
- SseStream.ChatStream: chunks end between characters, because the source decodes each chunk on its own.
- The event ids, retry fields and comments of the event-stream format of the WHATWG HTML standard, section 9.2.6, which the parser ignores.
- The handling of MCP messages between reading a request and writing its response.
- The daily digest, ingest, topic routing, the hub client, health monitors and circuit breakers.
