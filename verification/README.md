# A verified model of the logcenter Go SDK

The logcenter SDK collects structured events inside a service and delivers them to a log server: callers hand
events to a client, the client redacts, limits, stamps and validates them, keeps them in a bounded buffer and in a
durable file (the outbox), and one worker goroutine posts them in batches. This project models that library in
Dafny and proves what it promises about losing, duplicating, reordering, leaking and tampering.

| file | what it models |
|---|---|
| `Bytes.dfy`, `Seqs.dfy`, `Events.dfy` | Go strings as bytes, `strings.TrimSpace`, sequences, the event record and its dynamic values |
| `EventQueues.dfy` | the bounded priority buffer (`logcenter/queue.go`) |
| `Outboxes.dfy` | the outbox file as a sequence of lines (`logcenter/outbox.go`) |
| `Delivery.dfy`, `Clients.dfy`, `DeliveryLaws.dfy` | batches, retries and the worker's loops (`logcenter/client.go`), sequentially |
| `Pipeline.dfy`, `PipelineLaws.dfy`, `PipelineAccounts.dfy`, `AsyncCalls.dfy`, `SyncCalls.dfy`, `Duplicates.dfy`, `Closing.dfy` | the same client as a concurrent protocol, and its safety over all interleavings |
| `Refinement.dfy`, `EndToEnd.dfy` | the sequential flush is a run of the protocol; the outbox of any reachable state can be drained |
| `TamperChain.dfy`, `ChainLaws.dfy` | the hash chain (`logcenter/tamper.go`) |
| `Redaction.dfy` | the redactor (`logcenter/redaction.go`) |
| `Utf8.dfy`, `Limits.dfy` | truncation and the limiter (`logcenter/limit.go`) |
| `Admission.dfy` | validation (`logcenter/validation.go`) and `prepareEvent` |
| `BodyCapture.dfy` | capture and replay of a request body (`logcenter/bodycapture.go`) |

What the library cannot decide is a parameter. The server and the disk are scripts of answers in `Delivery` and free
choices in `Pipeline`; clocks and fresh IDs are arguments; SHA-256, HMAC, JSON encoding and its sizes, RFC 3339
parsing, lower-casing and the redaction patterns are function values about which nothing is assumed. A loop of the
library that need not terminate is run against a finite script of server answers, and a result says `Cut` when the
script is over, so every finite stretch of such a run is covered. Where Go iterates a map in an unspecified order the
model is a relation that allows every order.

## Main results

- **Durability.** Whatever the goroutines, the server, the disk and crashes do, an ID once in the outbox is in it for
  ever after or was in a batch answered with a 2xx (`RecordsSurvive`, `AppendedEventsSurvive`); counting only new
  answers, it can be lost if and only if a sender is past its answer for it (`LossPossibleIff`).
- **Duplication.** Over every run an ID is in at most two acknowledged batches for each call with it, one for a record
  found at the start, and one for each crash and failed removal (`DeliveriesBounded`); two is reached without either
  (`TwiceHappens`).
- **No lost wake-up.** A sleeping worker with a full batch waiting has a token in its channel or a producer about to
  put one there (`NoLostWakeUp`).
- **Close.** Whoever calls after Close is turned away and counted, whatever the interleaving (`ClosedTurnsAway`), and the
  worker's passes begin and end as they should (`WorkerPasses`, `StopsOnlyAfterClose`).
- **Recorded before buffered.** What is in the buffer has been appended before (`BufferedIsRecorded`), because every
  call records, pushes, counts and signals in that order (`AsyncCallCourse`).
- **Conservation.** Calls and re-read events equal events buffered, under way, sent, failed and dropped, in every
  reachable state (`EventsAreConserved`); the buffer alone accounts for every event it was offered (`RunConserves`).
- **Synchronous sends.** In any interleaving a call posts within its retry budget and appends its event to the outbox
  exactly once if its last answer was worth retrying, and otherwise never (`SyncCallSettles`).
- **Exact flush.** A flush that reports success without interference delivers each ID exactly once and leaves only junk
  lines behind (`QuietFlushExact`); it is a run of the concurrent protocol (`FlushIsARun`).
- **Termination of the outbox drain**, whatever the disk does, once records and disk faults are spent
  (`OutboxDrainEnds`), because admission leaves no record without an ID in any reachable state
  (`ReachableOutboxDrains`); on a working disk and against a server that accepts, if and only if none lacks one
  (`OutboxDrainEndsIff`).
- **Order.** Events leave in the order they came, at every point of a run, if and only if every eviction hit the last
  slot (`RunInOrderIff`).
- **Best retention.** The buffer holds exactly the first important events that fit, and gives up debug before info
  lines, in closed form (`KeepsTheBest`).
- **Tamper evidence.** Equal chain heads mean equal histories, or a collision is exhibited among the very messages the
  two chains hashed (`EqualHeadsEqualHistories`, `EqualHeadsEqualEvents`, and for whole runs `EqualMemoriesEqualRuns`);
  restarts do not show if and only if the last
  stamp before each was saved (`RestartTransparentIff`, `MarksTransparentIff`).
- **Redaction** hides exactly what it should, as an if-and-only-if over pairs of events (`RedactionHidesExactly`), and
  what it hides reaches neither buffer, outbox, server nor chain (`NothingHiddenGetsThrough`).
- **Limits** are idempotent for every iteration order (`LimitTwice`), truncate place by place and lose nothing else
  (`LimitedByPlace`, `PlacesKept`), and truncation respects UTF-8 (`TruncationIsSafe`).
- **Body replay** is exact for every chunking and every sizing of reads (`BodyCapture.Request.ReadAndRestore`).

## Where the code falls short of a plausible promise

Each of these keeps the code as it is, shows the failure and states when the promise does hold.

- `sendOutbox` never returns while the file holds a decodable line without an ID and the server keeps accepting
  (`NamelessRecordNeverEnds`); on a working disk that is the exact condition (`OutboxDrainEndsIff`). Nor does it while
  removals fail, because their errors are swallowed (`SwallowedRemovalNeverEnds`); each failure costs one more round
  and no more (`OutboxDrainEnds`).
- Delivery is not exactly once even when nothing goes wrong: the record is in the file before its event is in the
  buffer, so the worker can deliver both (`TwiceHappens`); `DeliveriesBounded` bounds it, and a quiet flush is exact
  (`QuietFlushExact`).
- A failed save of the chain state followed by a restart hands out the same sequence number and hash twice
  (`StaleRestartRepeats`); the exact condition is `RestartTransparentIff`.
- The idempotency key is truncated to the string limit and the event ID it must equal is not, so a long ID disagrees
  with itself: `abcdefghijk` under a limit of 10 bytes (`ElevenBytesMismatch`). The exact condition is
  `LongIdsMismatchIff`, and `IdMismatchIff` for keys and IDs that differ or have surrounding space.
- The placeholder for an oversized field has a 16-byte key of its own, so with a smaller string limit it breaks that
  limit (`SmallLimitMissesPlaceholder`); the exact conditions are `FieldSettledIff` for a value and
  `FieldAlwaysSettledIff` for settings.
- A capture limit of the largest 64-bit number wraps and captures nothing; `BodyCapture.Request.ReadAndRestore` states
  both sides.
- An eviction can put the newcomer ahead of older events (`EvictionReorders`); it keeps the order exactly when the
  victim has nothing else behind it (`EvictionKeepsOrderIff`, `RunInOrderIff`).
- A synchronous event the server rejects for good counts as retryable and goes to the outbox to be sent again
  (`SyncCallSettles`, whose `WorthRetrying` holds of a rejecting 2xx).
- Redacting twice is redacting once exactly when scrubbing texts has that property (`RedactIdempotentIff`), which it has
  not: `token=secret` gains a bracket on the second pass (`TokenPairRedactsTwice`), as does every pair with a value
  (`ScrubPairTwiceIff`).

## Model

| member | source | states |
|---|---|---|
| Bytes.TrimSpaceIdempotent | logcenter/client.go:233 | trimming a trimmed text changes nothing, over the UTF-8 encodings of all of Go's space runes |
| Bytes.TrimSpaceTakes | logcenter/client.go:233 | trimming takes spaces off both ends, nothing else, and all of them |
| Utf8.SpaceIsSpacePoint | logcenter/client.go:233 | what is taken for a space is the UTF-8 encoding of one of Go's space code points |
| Utf8.SpacePointIsSpace | logcenter/client.go:233 | and each of those is taken for one |
| EventQueues.FirstAtLevel | logcenter/queue.go:75-82 | the lowest slot holding a log event of the level, or -1 when there is none |
| EventQueues.Taken | logcenter/queue.go:59-61 | a drain takes at least one event of a non-empty buffer, at most the maximum, and everything for a non-positive one |
| EventQueues.EventQueue.constructor | logcenter/queue.go:17-22 | a fresh queue is empty and has the capacity's slots |
| EventQueues.EventQueue.IndexOfDroppable | logcenter/queue.go:75-82 | the scan finds the first droppable slot of the level |
| EventQueues.EventQueue.Push | logcenter/queue.go:24-50 | new contents and report are those of the specification of a push |
| EventQueues.EventQueue.ShiftDown | logcenter/queue.go:64 | the overlapping copy moves every remaining event down unharmed |
| EventQueues.EventQueue.Drain | logcenter/queue.go:52-67 | what is taken followed by what is left is what was there; the number taken is exact |
| EventQueues.PushConserves | logcenter/queue.go:24-50 | a push loses nothing unreported, changes at most one slot, that of a droppable event, and refuses only the newcomer |
| EventQueues.EvictsOldestLeast | logcenter/queue.go:38-50 | a full buffer gives up its oldest debug line, without one its oldest info line, reported as replaced; it refuses an important event only when it has neither |
| EventQueues.RunConserves | logcenter/queue.go:24-67 | over any pushes and drains the events offered are those held, drained, evicted and refused; within capacity; in order while nothing was evicted |
| EventQueues.EvictionReorders | logcenter/queue.go:38-42 | a concrete eviction that loses the order: the newcomer stands ahead of an older event |
| EventQueues.EvictionKeepsOrderIff | logcenter/queue.go:38-46 | an eviction equals dropping the victim and appending the newcomer if and only if nothing but copies of the newcomer stands behind the victim |
| EventQueues.PushInOrderIff | logcenter/queue.go:24-50 | a push keeps the order of arrival if and only if it evicts nothing or the last slot |
| EventQueues.RunInOrderIff | logcenter/queue.go:24-67 | over any run of distinct events, what left and then what is held is in order of arrival at every point if and only if every eviction hit the last slot |
| EventQueues.KeepsTheBest | logcenter/queue.go:24-50 | after any pushes: length min(capacity, offered), the important events held are the first that fit, debug lines are given up before info lines, with exact counts |
| Outboxes.Peeked | logcenter/outbox.go:50-83 | a batch is a prefix of the decodable events, never longer than a positive maximum, shorter than all of them only at the maximum, empty only when there is none |
| Outboxes.DurableOutbox.Append | logcenter/outbox.go:25-48 | the file gains one line per event written before the disk failed; decoded again, the file is what it was followed by those events, and its junk is untouched |
| Outboxes.RecordsDecode | logcenter/outbox.go:41-47 | what is appended decodes again, after what was there |
| Outboxes.DurableOutbox.Peek | logcenter/outbox.go:50-83 | the first decodable events up to the maximum, junk skipped; nothing on a fault |
| Outboxes.DurableOutbox.Remove | logcenter/outbox.go:85-163 | exactly the records with a listed non-empty ID are gone; unchanged on a fault |
| Outboxes.WithoutSelects | logcenter/outbox.go:121-135 | removal is a selection of positions in increasing order, exactly those of the junk lines and of the records not named |
| Outboxes.WithoutTwice | logcenter/outbox.go:85-163 | removing two sets of IDs in turn is removing their union |
| Outboxes.WithoutShrinks | logcenter/outbox.go:121-135 | removing a stored ID leaves strictly fewer decodable lines |
| Clients.Client.RemoveOutbox | logcenter/client.go:490-497 | non-empty IDs of the batch are collected and removed; a disk error is swallowed |
| Clients.Client.RecordBatchSent | logcenter/client.go:343-349 | success counters and outbox after an acknowledged batch |
| Clients.Client.SendBatchInternal | logcenter/client.go:316-366 | the retry loop does what its specification says, for every script of answers |
| Clients.Client.SendEventSync | logcenter/client.go:107-111 | a prepared event is sent with rejections as errors and appended to the outbox on a retryable error, as specified |
| Clients.Client.SendOutbox | logcenter/client.go:368-385 | the peek-and-send loop does what its specification says |
| Clients.Client.Flush | logcenter/client.go:288-306 | drains every batch, remembers the first error, then drains the outbox, as specified |
| DeliveryLaws.RetryBounds | logcenter/client.go:338-366 | at most RetryAttempts+1 posts; a post is followed by another exactly when one is left and its answer is 429, 500 or above, or no HTTP status; acknowledged exactly on success, failed then only for rejected events that count as errors; 50, 100, ... ms of sleep, at most 25*R*(R+1); buffer untouched, outbox too unless acknowledged |
| DeliveryLaws.UnconfiguredFails | logcenter/client.go:320-329 | without endpoint or key a batch counts as failed and nothing is posted, slept for or removed |
| DeliveryLaws.SyncEventKeptIff | logcenter/client.go:107-111 | a synchronous event is appended exactly when the client is not configured or the last answer is 429, 500 or above, no HTTP status, or a success that rejects it; the call succeeds exactly on a success that rejects nothing |
| DeliveryLaws.BatchesWithinSize | logcenter/client.go:290-384 | no batch of a flush, from buffer or outbox, is empty or over the batch size |
| DeliveryLaws.DrainOutboxTells | logcenter/client.go:368-385 | on any disk, success leaves no decodable line, and an unreadable file is reported only after a failing access |
| DeliveryLaws.CountersFollowSends | logcenter/client.go:343-347 | through a flush every counter equals what the log of batches determines |
| DeliveryLaws.ChunksCover | logcenter/client.go:290-298 | the batches concatenate to the buffer, none empty, none over the batch size |
| DeliveryLaws.ChunksCount | logcenter/client.go:290-298 | their number is the buffer's length over the batch size, rounded up |
| DeliveryLaws.DrainSendsEveryBatch | logcenter/client.go:288-301 | every batch is tried in order despite failures, the buffer ends empty, the first failure is reported |
| DeliveryLaws.SendBatchDone | logcenter/client.go:349 | an acknowledged batch leaves the outbox without its IDs and nothing else missing |
| DeliveryLaws.FlushDelivers | logcenter/client.go:288-306 | after a successful quiet flush: buffer empty, no decodable line, junk kept, and the exact number of acknowledged batches for every ID |
| DeliveryLaws.QuietFlushExact | logcenter/client.go:288-306 | with distinct buffered IDs, each ID of buffer or outbox was acknowledged in exactly one batch |
| DeliveryLaws.RoundShrinks | logcenter/client.go:372-384 | an acknowledged round with an ID to remove leaves fewer decodable lines |
| DeliveryLaws.OutboxDrainEnds | logcenter/client.go:368-385 | with IDs on every record the drain ends whatever the disk does, within the retries of one batch for each record and each failing disk access |
| DeliveryLaws.NamelessRecordNeverEnds | logcenter/client.go:368-385 | a record without an ID is sent for as long as the server accepts |
| DeliveryLaws.SwallowedRemovalNeverEnds | logcenter/client.go:490-497 | with reads that work and removals that fail, the same batch is sent for as long as the server accepts |
| DeliveryLaws.OutboxDrainEndsIff | logcenter/outbox.go:92-100 | on a working disk and against an accepting server the drain ends if and only if every record has an ID |
| PipelineLaws.RecordsSurvive | logcenter/client.go:187-199 | over all interleavings and crashes an ID in the outbox stays there or was answered 2xx |
| PipelineLaws.AppendedEventsSurvive | logcenter/client.go:481-497 | the same for every event whose append reached the disk; the answer comes after the append unless a sender was already past its answer for that ID |
| PipelineLaws.RecordsAwaitAnswer | logcenter/client.go:341-349 | from any state in which no sender is past its answer for an ID, the ID stays in the outbox until it is answered 2xx anew |
| PipelineLaws.LossPossibleIff | logcenter/client.go:349 | some continuation loses a stored ID without a new answer if and only if a sender is past its answer for it |
| PipelineLaws.AnswersRecordedStep | logcenter/client.go:341-349 | every step keeps: IDs are removed only from batches already answered 2xx |
| PipelineLaws.WakeUpSafeStep | logcenter/client.go:258-286 | every step keeps the wake-up invariant |
| PipelineLaws.NoLostWakeUp | logcenter/client.go:188-198 | an idle worker with a full batch waiting has its token in the channel or owed by a producer |
| Closing.ClosedTurnsAway | logcenter/client.go:174-178 | after Close, in any interleaving, new callers only look at the flag and count one drop each; none prepares, appends, pushes or posts |
| Closing.ClosedAndQuiet | logcenter/client.go:94-98 | with nobody inside a closed client its buffer only drains and nothing is appended |
| Closing.WorkerPasses | logcenter/client.go:258-286 | a pass begins only for a full batch, the timer or a flush, or after Close; it keeps its kind and ends in sleep, the last one for good |
| Closing.StopsOnlyAfterClose | logcenter/client.go:281-283 | in every reachable state the worker is in its last pass or stopped only if the client is closed |
| AsyncCalls.AsyncCallCourse | logcenter/client.go:170-199 | in any interleaving a call is turned away, refused, or records, pushes, counts and signals in that order, a failed record not stopping it |
| AsyncCalls.SyncCallAvoidsBuffer | logcenter/client.go:87-112 | a synchronous call never pushes nor wakes the worker |
| AsyncCalls.BufferedIsRecorded | logcenter/client.go:187-188 | with appends that work, whatever is pushed, buffered or in a batch from the buffer was appended before |
| Duplicates.StepCovered | logcenter/client.go:187-199 | every step delivers an ID at most as often as it lowers what is still owed, which only a call with the ID, a crash or a failed removal raises |
| Duplicates.DeliveriesBounded | logcenter/client.go:340-385 | over every run, acknowledged batches with an ID are at most two for each call with it, one for a record found at the start, and one for each crash and each failed removal |
| Duplicates.AtMostTwice | logcenter/client.go:187-199 | an ID used by one call is acknowledged at most twice without crashes and failed removals |
| Duplicates.TwiceHappens | logcenter/client.go:187-188 | a run without crash or fault that delivers one call's event from its record and again from the buffer |
| SyncCalls.StandsStep | logcenter/client.go:340-365 | every step of anybody keeps what a synchronous call's position says about its answers and appends so far |
| SyncCalls.SyncCallSettles | logcenter/client.go:107-111 | in any interleaving a synchronous call posts at most RetryAttempts + 1 times, again only after a retryable failure, and persists its event exactly once if its last answer is retryable or a 2xx that rejects it, else never |
| PipelineAccounts.BooksStep | logcenter/client.go:170-199 | every step keeps both balances and the capacity |
| PipelineAccounts.EventsAreConserved | logcenter/client.go:94-112 | calls plus re-read events equal buffered, under way, sent, failed and dropped events in every reachable state, and the Queued counter balances too |
| PipelineAccounts.CountersAddUpAtRest | logcenter/stats.go:22-36 | without an outbox and with everybody at rest the public counters add up to the calls |
| PipelineAccounts.ThresholdReachableIff | logcenter/config.go:74-82 | a full batch can wait for the sleeping worker if and only if the batch size does not exceed the buffer size |
| PipelineAccounts.OnlyAdmittedEventsTravel | logcenter/client.go:180-188 | everything buffered, appended, under way or delivered passed validation or was in the file from the start |
| PipelineAccounts.RecordsKeepIds | logcenter/outbox.go:175-183 | if validation demands IDs, no reachable outbox holds a record without one |
| Refinement.BatchRuns | logcenter/client.go:316-366 | a batch sent sequentially is a stretch of worker steps of the protocol with the same result |
| Refinement.FlushIsARun | logcenter/client.go:265-306 | a whole sequential flush is a run made of worker steps only, ending in the same buffer, outbox and counts |
| EndToEnd.ReachableOutboxDrains | logcenter/client.go:368-385 | from every reachable state of the protocol the outbox drain terminates within that bound |
| TamperChain.Hex | logcenter/tamper.go:122-125 | two characters a byte, no line break |
| TamperChain.HexInjective | logcenter/tamper.go:122-125 | different digests print differently |
| TamperChain.HexReadsBack | logcenter/tamper.go:122-125 | lower-case digits, high digit first, that read back as the bytes |
| TamperChain.DecimalInjective | logcenter/tamper.go:118 | different sequence numbers print differently |
| TamperChain.DecimalReadsBack | logcenter/tamper.go:118 | digits without a leading zero that read back as the number |
| TamperChain.MessageInjective | logcenter/tamper.go:118 | the four parts of a message can be recovered from it, even if the chain ID has line breaks |
| TamperChain.EvidenceBinds | logcenter/tamper.go:117-126 | equal hashes under one secret mean equal chain ID, sequence number, predecessor and canonical hash, or their two messages collide: under HMAC with a secret, under SHA-256 without |
| TamperChain.CanonicalCovers | logcenter/tamper.go:195-217 | the canonical hash is the SHA-256 of the encoded event with every metadata entry but the stamp, and none at all if there is no other |
| TamperChain.CanonicalBinds | logcenter/tamper.go:195-203 | equal canonical hashes mean equal encodings, stamps apart, or SHA-256 collides on the two |
| TamperChain.ApplyOutcomes | logcenter/tamper.go:66-115 | an event is stamped exactly when its type and class are configured and it encodes; what else happens to event, head, file and error in every other case |
| TamperChain.OpenChain | logcenter/tamper.go:43-64 | a chain opens exactly when its file is absent, unused or decodable and of no other chain, and starts from what the file holds; the error names the cause |
| TamperChain.SavedStateLoads | logcenter/tamper.go:135-193 | a load reads back what a working save wrote, and what it read before if the save failed |
| TamperChain.TamperEvidence.Stamp | logcenter/tamper.go:66-101 | stamp, new head, saved state and error are those of the specification |
| TamperChain.StampReadsBack | logcenter/tamper.go:85-93 | the stamp can be read back from the metadata |
| TamperChain.StampNamesChain | logcenter/tamper.go:85-93 | the stamp names its version, chain and algorithm and has exactly seven entries |
| TamperChain.CanonicalIgnoresStamp | logcenter/tamper.go:205-217 | the canonical hash is the same with and without a stamp, whatever the metadata was |
| TamperChain.StampSelfConsistent | logcenter/tamper.go:74-126 | a stamped event verifies: the recomputed canonical hash is the recorded one, and the recorded hash is the HMAC under the secret, or without one the SHA-256, of chain ID, sequence, predecessor and canonical hash on four lines |
| ChainLaws.Head | logcenter/tamper.go:78-96 | a chain head is empty at genesis and a 64-character line otherwise |
| ChainLaws.EqualHeadsEqualHistories | logcenter/tamper.go:78-96 | equal heads mean equal chain ID, length and canonical hashes, or a collision at known positions |
| ChainLaws.EqualHeadsEqualEvents | logcenter/tamper.go:195-203 | equal heads mean the same encoded events, or a collision among messages or encodings |
| ChainLaws.RestartsDoNotShow | logcenter/tamper.go:135-156 | with no stale restart a run has the same stamps and state as without restarts |
| ChainLaws.WorkingSavesAreNeverStale | logcenter/tamper.go:95-99 | if every save works no restart is stale |
| ChainLaws.RestartTransparentIff | logcenter/tamper.go:135-193 | stamps, head and file are those of the run without restarts if and only if the last stamp before each restart was saved; otherwise the head already differs |
| ChainLaws.MarksTransparentIff | logcenter/tamper.go:66-115 | the stamps alone are those of the run without restarts if and only if that holds up to the last stamp |
| ChainLaws.MarksFormTheChain | logcenter/tamper.go:78-96 | if the last stamp before each restart was saved, stamps are numbered consecutively, each names its predecessor's hash, and memory holds the chain's head |
| ChainLaws.MarksFormTheChainIff | logcenter/tamper.go:78-99 | and only if it was |
| ChainLaws.EqualMemoriesEqualRuns | logcenter/tamper.go:78-126 | two such runs whose memories hold one hash stamped the same canonical hashes under the same chain ID, or two hashed messages collide |
| ChainLaws.StaleRestartRepeats | logcenter/tamper.go:97-99 | a failed save and a restart repeat a stamp |
| ChainLaws.NonMatchingInvisible | logcenter/tamper.go:67-69 | a run with any events that do not match or cannot be encoded is, in stamps, head and file, the run without them |
| Redaction.NormalizeFragments | logcenter/redaction.go:179-194 | no duplicates, and a key is sensitive exactly when a non-blank configured fragment occurs in it |
| Redaction.ContainsIff | logcenter/redaction.go:152-160 | a fragment occurs in a key exactly when the key is something, the fragment, and something |
| Redaction.NewRedactor | logcenter/redaction.go:55-61 | a key is sensitive exactly when a non-blank built-in or extra fragment occurs in it, both normalized |
| Redaction.RedactFieldsLoop | logcenter/redaction.go:67-80 | the loop computes the recursive specification |
| Redaction.RedactValueLoop | logcenter/redaction.go:86-113 | the loops compute the recursive specification |
| Redaction.RedactionSeesAlike | logcenter/redaction.go:86-127 | two values redact alike if and only if they agree outside sensitive places, at any depth |
| Redaction.RedactionHidesExactly | logcenter/redaction.go:166-177 | two events redact to the same event if and only if they differ only in what is to be hidden |
| Redaction.RedactedIsClean | logcenter/redaction.go:67-113 | no sensitive key keeps its value, other texts are scrubbed, and no key, item, change or other value is lost, at any depth |
| Redaction.RedactedEventIsClean | logcenter/redaction.go:166-177 | the same for the fields of an event, its four free texts being scrubbed and the others untouched |
| Redaction.RedactIdempotentIff | logcenter/redaction.go:133-146 | redacting twice is redacting once exactly when scrubbing texts twice is scrubbing them once |
| Redaction.ScrubPairTwiceIff | logcenter/redaction.go:138-144 | a second pass of the pair pattern over one pair, white space around its separator included, changes nothing if and only if the first found no value; otherwise it adds a bracket |
| Redaction.TokenPairRedactsTwice | logcenter/redaction.go:204 | `token=secret` shows that the redactor is not idempotent |
| Utf8.ValidStringPrefix | logcenter/limit.go:164-179 | the loop stops at the last rune boundary within the limit |
| Utf8.TruncateStringBytes | logcenter/limit.go:154-162 | computes the specified truncation |
| Utf8.LastBoundaryIsLongest | logcenter/limit.go:171-178 | the boundary found is one, none within the limit is later, and at most three bytes are lost |
| Utf8.TruncationIsSafe | logcenter/limit.go:154-179 | result within the limit and at most three bytes short, longest whole-rune prefix plus marker, well-formed if the input was |
| Utf8.EncodingIsRune | logcenter/limit.go:171-178 | the UTF-8 encoding of every code point is read as one rune of its width |
| Utf8.RuneIsEncoding | logcenter/limit.go:171-178 | every rune of a well-formed text is the encoding of a code point |
| Limits.NewLimiter | logcenter/limit.go:18-26 | the ceilings are the ones given, and its truncation makes every text fit and leaves fitting texts alone |
| Limits.LimitFieldsMap | logcenter/limit.go:142-148 | for any iteration order: every truncated key present, every entry from one of its sources |
| Limits.LimitValue | logcenter/limit.go:107-140 | the result is a possible limiting of the value |
| Limits.LimitedSettles | logcenter/limit.go:107-148 | every string and key of a result is within the limit at every depth |
| Limits.SettledFixed | logcenter/limit.go:107-148 | a value within the limits has itself as its only result |
| Limits.LimitTwice | logcenter/limit.go:73-87 | limiting a result again is the identity even after key collisions |
| Limits.LimitedByPlace | logcenter/limit.go:107-148 | whatever stands at any path of a result comes from a path of the value that leads there: a string truncated, a map with its keys truncated, the rest as it was |
| Limits.PlacesKept | logcenter/limit.go:107-148 | whatever stands at a path of the value is, limited so, at the truncated path of the result unless a key on the way is truncated like another |
| Limits.LimitJsonValue | logcenter/limit.go:89-105 | nil stays nil, otherwise the limited value put under its ceiling |
| Limits.LimitFields | logcenter/limit.go:73-87 | the double pass equals one pass put under its ceiling |
| Limits.CeilingsHold | logcenter/limit.go:73-105 | a limited field is nil or within its encoded-size ceiling; it is the limited value unless nil or the placeholder, and nil only when the placeholder is too large as well |
| Limits.SmallValuesStay | logcenter/limit.go:94-96 | a value or map within the string limit and its ceiling is left as it is |
| Limits.UnencodableReplaced | logcenter/limit.go:97-104 | a value that cannot be encoded is replaced by the placeholder naming its field, or nil, under any ceiling up to five megabytes |
| Limits.FieldSettledIff | logcenter/limit.go:89-105 | the string limit holds in a limited field if and only if it has room for the placeholder, the limited value is within its ceiling, or the placeholder is not |
| Limits.FieldAlwaysSettledIff | logcenter/limit.go:89-105 | the same for settings: when the limit holds in the field for every value |
| Limits.SmallLimitMissesPlaceholder | logcenter/limit.go:97-103 | with a string limit of 4 and a ceiling of 64, forty zeros recorded as changes become the placeholder, whose keys break the limit |
| Limits.LimitEvent | logcenter/limit.go:28-71 | every field limited as specified, and the verdict on the encoded event size |
| Limits.EventByParts | logcenter/limit.go:28-71 | each of 26 texts is its own truncation, every other envelope field is untouched, each structured field is its own value limited, the placeholder naming it, or nil |
| Limits.EventWithinLimits | logcenter/limit.go:28-71 | all 26 truncated texts fit, all five structured fields are nil or within their ceilings, and every string and key nested in them fits if the limit has room for the placeholder |
| Limits.ShortTextsStay | logcenter/limit.go:28-54 | an event whose texts fit keeps every one of them |
| Admission.WithDefaults | logcenter/client.go:231-256 | the step-by-step defaults equal the stated ones: caller's ID, else trimmed key, else fresh ID |
| Admission.PrepareEvent | logcenter/client.go:201-222 | defaults, redaction, limits, size check, stamp and validation in that order, with the chain state left behind on each failure |
| Admission.ValidIff | logcenter/validation.go:48-98 | the ordered checks accept exactly the events whose envelope and type-specific requirements hold |
| Admission.EnvelopeIff | logcenter/validation.go:49-78 | the envelope checks accept exactly agreeing IDs, required fields, known names and encodable maps |
| Admission.ByTypeIff | logcenter/validation.go:80-208 | the type-specific checks accept exactly what each of the eight types requires |
| Admission.ValidatedEnvelope | logcenter/validation.go:49-54 | a valid event has a non-blank ID that agrees with a non-blank idempotency key |
| Admission.ErrorsTellTrue | logcenter/validation.go:48-208 | the error validation reports is true of the event: the text it names is blank or no time, the IDs differ, the duration is negative |
| Admission.PreparedIsAdmitted | logcenter/client.go:201-222 | a prepared event is valid, carries the stated ID untouched, and was within the event size before stamping |
| Admission.PreparedByParts | logcenter/client.go:201-256 | field by field: empty fields come from the configuration, free texts are scrubbed and then truncated, the rest of the envelope is the caller's |
| Admission.FailuresAndTheChain | logcenter/client.go:206-222 | an event over its size leaves the chain alone; one rejected by validation has used up a sequence number; a failed save rejects a stamped event |
| Admission.NothingHiddenGetsThrough | logcenter/client.go:201-222 | raw events that differ only in what redaction hides have the same limited forms, prepared events, errors and chain states |
| Admission.IdMismatchIff | logcenter/validation.go:49-51 | for every key and ID: mismatch if and only if what truncation leaves of the key is not blank and differs from the ID, up to trimming |
| Admission.LongIdsMismatchIff | logcenter/limit.go:29 | an event whose key and ID agree is refused as a mismatch if and only if the key is over the string limit and truncation leaves anything of it, for every limit |
| Admission.LongIdsAreRejected | logcenter/client.go:201-222 | with a limit of four bytes or more preparation rejects every trimmed ID over it, and with room for the marker every ID over it once trimmed |
| Admission.ElevenBytesMismatch | logcenter/limit.go:29 | with a limit of 10, the 11-byte ID `abcdefghijk` is refused |
| Admission.ShortIdsMatch | logcenter/validation.go:49-51 | a key that fits and agrees with the ID, or a fitting ID without a key, never fails the agreement check |
| BodyCapture.ReadTakesFront | logcenter/bodycapture.go:56 | a read takes bytes off the front and nothing else, whatever the chunks |
| BodyCapture.Request.Read | logcenter/bodycapture.go:57-60 | replayed bytes first, then the stream, nothing lost or repeated |
| BodyCapture.Request.ReadLimited | logcenter/bodycapture.go:56 | reads up to the limit, the end or an error, and leaves the rest |
| BodyCapture.Request.ReadAndRestore | logcenter/bodycapture.go:53-69 | body unchanged for the next reader; capture and truncation flag exact except for the largest limit, which captures nothing |
| BodyCapture.Request.Drain | logcenter/bodycapture.go:71-78 | a handler reading to the end gets the original bytes |

## Left out

- HTTP transport, JSON syntax, contexts and timeouts: a post is answered by an oracle; encodings and sizes are parameters.
- Several clients on one outbox file: each has a mutex of its own (`logcenter/outbox.go`, lines 13-16), so an append of a second client between the scan and the replacement of a removal is lost; the durability law is that of one client that owns its file.
- IDs that are not valid UTF-8: the outbox is assumed to read back the ID that was written, which JSON does for UTF-8 only.
- File-system details: every outbox and state-file operation is atomic, succeeds or leaves the file alone, and lines are below the scanner's limit; `replaceFile` removes before it renames, so a crash inside it is not covered.
- Nil and empty slices inside values are not told apart; the passes never produce a nil slice.
- In-place change of the caller's metadata map by a stamp: events are values here, and redaction has already copied the map.
- Wrap-around of the statistics counters at 2^64, and negative counts in a server's response turned into large unsigned ones.
- The wake-up, durability and conservation laws are safety properties: no claim is made that a batch is eventually delivered, or that Close leaves nothing behind a racing producer.
- ChainLaws.RestartTransparentIff: stated below 2^64 stamped events, where the sequence number has not wrapped.
- ChainLaws.MarksTransparentIff: likewise.
- ChainLaws.MarksFormTheChainIff: likewise.
- Redaction.ScrubPairTwiceIff: models the pair pattern on one pair whose key holds no separator; finding the key in a text, the bearer pattern and further pairs are parameters.
- TamperChain.OpenChain: takes the settings after their defaults (chain ID, metadata key, trimmed sets of types and classes), which are easy.
- Redaction patterns for free text, fragment lists and lower-casing: parameters.
- The exact meaning of the Truncated counter, hooks, health handler, middleware, round tripper, request, span and operation builders, environment parsing and configuration defaults: plumbing around the modelled core with easy properties.
- Decoding of a captured body and media-type matching: input-to-output decisions without state.
