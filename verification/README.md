# Verified model of the agent message broker

The broker keeps its shared truth in Redis and changes it only through atomic Lua scripts
and compare-and-set loops; Python code around them caches, batches, retries and crashes.
This project models that core and proves what holds over whole runs, with any number of
brokers, sessions, aggregators and agents interleaving.

Each component has the same three layers:

- every script is a *function* from the stored keys to the stored keys;
- a *state machine* applies those functions in any order, with whatever stale belief the
  caller held, and an invariant of every reachable state is proved;
- *classes and methods* run the same scripts and loops statement by statement in place,
  each proved equal to its function;
- and each function is described by what it achieves: when a script takes effect and exactly
  what it then leaves.

| modules | component |
|---|---|
| `AuditLog`, `AuditScripts`, `AuditKeys`, `AuditRuns`, `AuditBatch` | the hash-chained audit stream, its indexes, segments and checkpoint |
| `AuditFeeds`, `AuditProgress` | what its scripts do to the agent streams, and when they commit |
| `AuditVerify`, `AuditQuery` | verification and paged queries across archive and live rows |
| `StreamIds`, `AuditCodec`, `AuditText` | decimal stream identities; the spliced serialisation of a record; what its text determines |
| `Policy` | the ingress pipeline: decide, audit, enqueue |
| `Delivery`, `DeliveryKeys`, `DeliverySession`, `DeliveryTurns` | at-least-once delivery with fenced ownership; capacity of a session; what each turn of its loop serves |
| `Replies`, `Leases` | request/reply correlation; session leases |
| `SpanWalk`, `LatencyWindow`, `Percentile` | what one flush of the fleet aggregator measures, counts and reports |
| `Aggregator`, `AggregatorCases`, `AggregatorLate`, `AggregatorKeys` | its lease, checkpoints and scores over whole runs; runs that surprise; scripts that run late; the keys in place |
| `Circuit`, `RateLimit`, `AgentState` | circuit breaker, sliding windows, revisioned agent state |

## Conventions

- There is one clock, which does not go back. A key with expiry `e` can be read while the
  clock is at most `e`.
- The record hash and the segment digest are arbitrary functions. Injectivity of the record
  hash is assumed only where two stores are compared (`HeadDeterminesRecords`); it follows
  from that of the hash of texts (`TextHashIsInjective`).
- A stream identity `ms-seq` is the number `ms * 2^64 + seq`; `StreamIds` proves that the
  scripts' text operations compute order and successor of that number.
- A reply that is lost after its script committed is a step whose caller learns nothing. For
  the aggregator a script whose caller gave up may also run later, or again.

## What the code does not do

Some properties one might expect do not hold as stated. The model keeps the code's behaviour,
shows a failing case and proves the exact condition.

- Verification does not look at live rows at or below the checkpoint's identity
  (`HiddenRowsPass`); it covers the whole live stream exactly when there are none
  (`VisibleIffNothingHidden`), as in every reachable store.
- A verification that overlaps an archive commit can answer false about a sound chain: if the
  archive took the rows before their pages were read it does (`VerifyChain`), and under an
  injective hash a sound chain is answered with true only if every row of the first read was
  read (`TrueReadsEveryRow`). An answer of true is never wrong, and while the checkpoint of
  the first read stands the answer is exact (`SameAnchorIsStable`).
- In the last millisecond of an owner key, the key is readable while `active` already
  answers no (`ActiveEndsFirst`); before that they agree (`ActiveAgrees`).
- The aggregator clears its memory only after `SET NX` has answered. If the grant takes
  effect and its answer is lost, the next renewal succeeds and the flush may start from an old
  checkpoint: its commit drops what another aggregator counted since (`LostGrantDropsCounts`).
  The flush after an unheard grant works from the committed checkpoint exactly when nobody
  else has committed since the memory (`LostGrantDecides`), and without such a grant an owner
  always does (`BaseIsCommitted`), although the key of that checkpoint may have expired. Even
  with such grants no window counts a message twice (`NoMessageCountedTwice`).
- A commit whose caller gave up may run when that caller is already in its next flush. It
  leaves the caller with an old checkpoint exactly when that has chosen its base or kept a
  memory (`LateCommitDecides`). No window counts a message twice as long as a late commit,
  and a commit it overtakes, read the scores under the lease and lowers no score. Both are
  needed: a late commit that read the scores after losing the lease counts a message twice
  (`UnownedReadingCountsTwice`), and so does a later flush once a late commit has replaced a
  score by an earlier one (`LoweredScoreCountsTwice`). Nor may a late lease call grant the
  lease to a flush that has taken its base (`LateGrantCountsTwice`).
- A flush reads its checkpoint and the completion scores one after the other. If both keys
  expire in between, a message can be counted twice. For spans that do not start in the
  future, and no scripts that run late, this is possible for `flush` exactly when
  `retention_seconds < latency_window_seconds + 10` (`NoMessageCountedTwice`,
  `CrampedSettingsCountTwice`), which the settings' bounds allow; with spans from the future
  it is possible always (`FutureSpansCountTwice`). Near that boundary the run needs a flush of
  almost ten seconds; the collector cancels a flush after three
  (packages/mas-server/src/mas_server/observation.py:162), so for a retention of at least
  three seconds more than the window the run belongs to `flush` alone.
- The rate limiter's caller reads the clock, and its script runs later; `EXPIRE` counts from
  the run and pruning from the reading. A call can then miss admissions of its window: the key
  expired between reading and running (`ExpiredKeyForgets`), or a call that read later ran
  before and pruned them (`LaterReadingForgets`); both exceed a limit. A call counts exactly
  its window if and only if its key has not expired when it runs or no admission lies in the
  window, and no earlier script has forgotten one (`CountsExactlyIff`). Under that condition
  the limits hold (`LimitsHold`), so they do when scripts run in the order of their readings
  with delays that do not grow (`OrderlyLimitsHold`).
- The rate limiter's script prints its reset time with 14 digits, four decimals for the
  present time. A call at the reported time can still be rejected (`ReportedResetCanBeEarly`):
  the window is open then if and only if printing did not round down, half a unit of the last
  digit later always, and exactly then for times of at most four decimals (`ReportedReset`).
- A circuit that is open or half-open also closes when its key expires, without any success
  (`ClosedWithoutSuccess`), and only then without one (`ExpiryCloses`,
  `ClosingNeedsSuccesses`), two timeouts after its opening at the earliest (`ExpiryComesLate`).

## Model

| member | source | states |
|---|---|---|
| `AuditRuns.RunKeepsOneChain` | packages/mas-gateway/src/mas_gateway/audit.py:57-204 | for every run of appends with any cached head, publications, archive commits and routing steps: archived then live rows are exactly the rows ever appended, one unbroken chain from no predecessor to the stored head, in identity order; the first live row links to the checkpoint, counts add up, every enqueued envelope is recorded |
| `AuditRuns.NextKeeps` | packages/mas-gateway/src/mas_gateway/audit.py:668-867 | every step keeps the invariant and extends the history by exactly the rows it reports; checkpoint totals only grow and published segments never change |
| `AuditRuns.AppendKeeps` | packages/mas-gateway/src/mas_gateway/audit.py:159-171 | a committed batch extends the history by its records, linked and indexed, and the head becomes the last record's hash |
| `AuditRuns.ArchiveKeeps` | packages/mas-gateway/src/mas_gateway/audit.py:174-204 | moving a prefix behind the checkpoint keeps the chain, the indexes and the whole history |
| `AuditRuns.ArchiveIndexed` | packages/mas-gateway/src/mas_gateway/audit.py:196-202 | after the trim each index stream is again the live stream filtered by its key |
| `AuditRuns.InvChain` | packages/mas-gateway/src/mas_gateway/audit.py:1426-1449 | live length plus checkpoint total is the length of one chain ending in the stored head |
| `AuditFeeds.StreamsOnlyGrow` | packages/mas-gateway/src/mas_gateway/audit.py:159-169 | over every run each agent stream holds what it held, followed by exactly the envelopes attached to committed batches or routed since, in order and under increasing identities; nothing is lost, replaced or reordered |
| `AuditFeeds.StepJoins` | packages/mas-gateway/src/mas_gateway/audit.py:159-169 | every step leaves all agent streams as they were, but for the envelopes it attaches, which join at the end |
| `AuditFeeds.BatchJoins` | packages/mas-gateway/src/mas_gateway/audit.py:165-167 | a committed batch puts on each stream exactly the envelopes attached to its writes for it, in order, behind all that is there |
| `AuditProgress.AppendCommitsIff` | packages/mas-gateway/src/mas_gateway/audit.py:57-158 | the append script commits a batch if and only if the caller knows the head, the batch is not empty and fits into the capacity, and identities are left on the audit stream and on every agent stream it names |
| `AuditProgress.ArchiveCommitsIff` | packages/mas-gateway/src/mas_gateway/audit.py:182-203 | the archive script answers true if and only if the stored checkpoint is the expected one and the rows are the live rows up to the new one; only then anything changes |
| `AuditProgress.ArchiveCommits` | packages/mas-gateway/src/mas_gateway/audit.py:174-204 | with its segment published, any number of the oldest live rows can be archived: they leave the live stream and every index, and the checkpoint counts them |
| `AuditProgress.ArchivingMakesRoom` | packages/mas-gateway/src/mas_gateway/audit.py:730-757 | a full stream becomes writable again: after archiving, a batch of at most the room won commits |
| `AuditProgress.PublishedReads` | packages/mas-gateway/src/mas_gateway/audit_archive.py:91-147 | a published segment can be read, and publishing changes no other |
| `AuditLog.Log.ArchivedChain` | packages/mas-gateway/src/mas_gateway/audit_archive.py:52-81 | an intact archive is one ordered chain ending in its checkpoint's hash, identity and total |
| `AuditLog.Log.ArchivedStable` | packages/mas-gateway/src/mas_gateway/audit_archive.py:91-147 | adding segments to the content-addressed store changes no archived row |
| `AuditScripts.PlanArchive` | packages/mas-gateway/src/mas_gateway/audit.py:797-852 | a plan exists exactly when the snapshot rows continue the archived chain and leave room for a next identity, and is then the segment and checkpoint for them |
| `AuditKeys.ChecksSuffice` | packages/mas-gateway/src/mas_gateway/audit.py:82-158 | the script's checks imply that every write still to come succeeds |
| `AuditKeys.WritableStep` | packages/mas-gateway/src/mas_gateway/audit.py:160-169 | writing one record leaves the rest of the batch writable: no identity is exhausted and no index overtakes the main stream |
| `AuditKeys.AuditKeys.Append` | packages/mas-gateway/src/mas_gateway/audit.py:57-171 | all or nothing: either the script's full effect, or nothing changes; no command inside it can fail |
| `AuditKeys.AuditKeys.WriteAll` | packages/mas-gateway/src/mas_gateway/audit.py:159-169 | the batch loop appends every record with the identities it replies |
| `AuditKeys.AuditKeys.WriteRecord` | packages/mas-gateway/src/mas_gateway/audit.py:161-167 | main stream, indexes and attached stream append of one record, none failing |
| `AuditKeys.AuditKeys.Archive` | packages/mas-gateway/src/mas_gateway/audit.py:174-204 | compare-and-trim in place equals the script function |
| `AuditKeys.SameRows` | packages/mas-gateway/src/mas_gateway/audit.py:183-195 | the row-by-row comparison decides equality of snapshot and live prefix |
| `AuditKeys.AuditKeys.PublishSegment` | packages/mas-gateway/src/mas_gateway/audit_archive.py:91-135 | publishing is idempotent, never replaces a body and fails on a different one |
| `AuditBatch.CommitBatch` | packages/mas-gateway/src/mas_gateway/audit.py:668-787 | with others interleaving and the shared head cache re-read at every attempt, the outcome is one append of the first `kept` writes, whose attached envelopes join their streams; all writes when archiving, else as many as fitted when an attempt found too little room; otherwise nothing of the batch is stored, for lack of room or because the script refuses it, or because every attempt met a stale head or a full stream; a commit leaves the stored head in the cache |
| `AuditBatch.Attempt` | packages/mas-gateway/src/mas_gateway/audit.py:707-757 | one script evaluation either stores the whole linked batch or leaves the store |
| `AuditFeeds.AppendAllJoins` | packages/mas-gateway/src/mas_gateway/audit.py:159-169 | writing records one by one joins what is attached to them, stream by stream |
| `AuditBatch.LinkBatch` | packages/mas-gateway/src/mas_gateway/audit.py:710-718 | each record is linked behind the hash of the one before |
| `AuditVerify.VerifyChain` | packages/mas-gateway/src/mas_gateway/audit.py:1145-1235 | with any interleaving, true means that the segments and live rows read are one chain with the stored head and last identity and mention the wanted message; without an archive commit between the reads the verdict is exactly whether the store of the first read is accepted, and the bound is reported only when exceeded; if the archive took the rows before they were read the verdict is false |
| `AuditVerify.CheckArchive` | packages/mas-gateway/src/mas_gateway/audit.py:1169-1205 | walking the segments decides whether the archive is intact and mentions the message |
| `AuditVerify.CheckSegment` | packages/mas-gateway/src/mas_gateway/audit.py:1173-1204 | a segment passes exactly when it agrees with its checkpoint and is an ordered chain |
| `AuditVerify.CheckLive` | packages/mas-gateway/src/mas_gateway/audit.py:1206-1232 | the rows read page by page continue the chain behind the checkpoint whatever is archived meanwhile; without an archive commit they are the visible rows and the check fails only if those are no chain |
| `AuditVerify.VerifyLive` | packages/mas-gateway/src/mas_gateway/audit.py:1206-1235 | behind an intact archive the last comparison with head and identity decides whether what was read is a chain |
| `AuditVerify.TrueReadsEveryRow` | packages/mas-gateway/src/mas_gateway/audit.py:1145-1235 | under an injective hash a sound chain is answered with true only when every row of the first read was read |
| `AuditVerify.SameAnchorIsStable` | packages/mas-gateway/src/mas_gateway/audit.py:1206-1218 | as long as the checkpoint of the first read stands, any later store gives the same rows to verify |
| `AuditVerify.ReachableAccepted` | packages/mas-gateway/src/mas_gateway/audit.py:1145-1235 | completeness: every nonempty store satisfying the invariant is accepted, for every recorded message and without one |
| `AuditVerify.AppendsAreStable` | packages/mas-gateway/src/mas_gateway/audit.py:1206-1218 | any run of appends, publications and routing after the first read leaves what a verification reads |
| `AuditVerify.HeadDeterminesRecords` | packages/mas-gateway/src/mas_gateway/audit.py:1145-1235 | soundness: under an injective hash two accepted stores with one head hold the same record sequence, however divided into segments and live rows |
| `AuditVerify.TipDeterminesChain` | packages/mas-gateway/src/mas_gateway/audit.py:1465-1471 | two chains from no predecessor with one tip are the same records |
| `AuditVerify.VisibleIffNothingHidden` | packages/mas-gateway/src/mas_gateway/audit.py:1206-1218 | verification reads all live rows exactly when none lies at or below the checkpoint |
| `AuditVerify.HiddenRowsPass` | packages/mas-gateway/src/mas_gateway/audit.py:1206-1218 | live rows inserted at or below the checkpoint leave an accepted store accepted |
| `AuditQuery.QueryStream` | packages/mas-gateway/src/mas_gateway/audit.py:974-1058 | if a paged query returns while appends and archiving go on, its rows are the first `count` matches, in order, of the full history at the moment of one of the call's reads, for the main stream and for sender and target indexes; it fails only when at one of the reads it made the archive had moved on or archive and stream exceeded the scan bound |
| `AuditQuery.QueryArchived` | packages/mas-gateway/src/mas_gateway/audit.py:1060-1115 | the archived matches, newest segment first in a bounded list, are the first `count` archived matches; no integrity error is reachable |
| `AuditQuery.QueryLive` | packages/mas-gateway/src/mas_gateway/audit.py:1008-1055 | page reads at different moments add up to the answer at the moment of the last page; it fails only when at a read it made the archive had moved or the scan bound was really exceeded |
| `AuditQuery.SeenIsLater` | packages/mas-gateway/src/mas_gateway/audit.py:1015-1021 | between two reads of a call the history only grows at its end, and an unchanged total means an unchanged checkpoint |
| `AuditQuery.StreamRange` | packages/mas-gateway/src/mas_gateway/audit.py:1037-1055 | a range of an index stream filtered by the caller is the same range of the live stream filtered by both |
| `AuditQuery.LastPage` | packages/mas-gateway/src/mas_gateway/audit.py:1042-1055 | a short page, or one that reaches the count, completes the answer |
| `StreamIds.Increment` | packages/mas-gateway/src/mas_gateway/audit.py:139-148 | the digit loop yields the numeric successor, canonical when its input is |
| `StreamIds.GreaterIsNumeric` | packages/mas-gateway/src/mas_gateway/audit.py:127-132 | the text comparison of identities is numeric comparison |
| `StreamIds.NextPartsIsSuccessor` | packages/mas-gateway/src/mas_gateway/audit.py:837-844 | carrying into the milliseconds gives the next number |
| `StreamIds.Exhausted` | packages/mas-gateway/src/mas_gateway/audit.py:149-158 | the exhaustion test holds exactly when `count` more identities would not fit, and is the test the script model makes |
| `StreamIds.ValueOfMaximum` | packages/mas-gateway/src/mas_gateway/audit.py:149-149 | the literal is the decimal text of 2^64 - 1 |
| `AuditCodec.Linked` | packages/mas-gateway/src/mas_gateway/audit.py:296-306 | the loop fills the open link and splices the text |
| `AuditCodec.SpliceIsCanonical` | packages/mas-gateway/src/mas_gateway/audit.py:268-306 | for every record and predecessor the spliced text is the serialisation of the whole linked record |
| `AuditCodec.FillIsStreamFields` | packages/mas-gateway/src/mas_gateway/audit.py:1452-1463 | the filled fields are those of storing the whole linked record |
| `AuditCodec.DecodeRestoresRecord` | packages/mas-gateway/src/mas_gateway/audit.py:1473-1507 | decoding the stored fields gives exactly the linked record, hence its text and hash |
| `AuditText.CanonicalIsInjective` | packages/mas-gateway/src/mas_gateway/audit.py:1465-1471 | records with one canonical text are one record, for every library that quotes strings recognisably |
| `AuditText.SameValue` | packages/mas-gateway/src/mas_gateway/audit.py:277-281 | a text begins with at most one value: texts, numbers, lists and objects can be told apart and end where they end |
| `AuditText.TextHashIsInjective` | packages/mas-gateway/src/mas_gateway/audit.py:1465-1471 | if no two texts have one hash then no two records do, so the chain detects a change of any field, list items included |
| `AuditText.RecordIsInjective` | packages/mas-gateway/src/mas_gateway/audit.py:215-250 | no two records have the same members in key order |
| `AuditText.SplicedHash` | packages/mas-gateway/src/mas_gateway/audit.py:296-306 | the text spliced around the link is the one whose hash the linked record has in the chain |
| `Policy.EnqueuedIsAudited` | packages/mas-server/src/mas_server/policy.py:179-206 | in every run of the pipeline each envelope on an agent stream belongs to a message whose record, with a routable decision and the very payload delivered, was committed no later |
| `Policy.OnePayload` | packages/mas-server/src/mas_server/policy.py:179-206 | the record tells who sent what to whom and how it was decided; the payload it tells of is the one delivered |
| `Policy.RunKeeps` | packages/mas-server/src/mas_server/policy.py:187-206 | the pipeline's own order makes every enqueue a permitted routing step of the audit stream's runs |
| `Policy.EnqueueKeeps` | packages/mas-server/src/mas_server/policy.py:201-206 | an enqueue after `log_message` returned always finds its record |
| `Policy.BatchRecorded` | packages/mas-gateway/src/mas_gateway/audit.py:468-498 | a committed batch holds a record for each of its messages, and exactly the envelopes attached to them join their streams |
| `Policy.DecisionMeans` | packages/mas-server/src/mas_server/policy.py:97-177 | a decision is routable exactly when every check lets the message pass, the first refusal names it, and exactly a redaction replaces the payload |
| `Policy.LoggedIsRouted` | packages/mas-server/src/mas_server/policy.py:187-206 | a committed batch puts the envelopes of its routable messages on their streams or leaves them to be enqueued |
| `Policy.EnqueueDelivers` | packages/mas-server/src/mas_server/policy.py:201-206 | an enqueue puts the envelope at the end of its stream, touches no other and forgets the message |
| `Policy.AlwaysAdmissible` | packages/mas-gateway/src/mas_gateway/audit.py:468-498 | no batch of messages is refused for its content |
| `Policy.Incoming.Judge` | packages/mas-server/src/mas_server/policy.py:97-177 | the checks in order, first refusal wins, payload rewritten in place only when redacted |
| `Delivery.EveryMessageHasOneFate` | packages/mas-server/src/mas_server/delivery.py:30-67 | over every run each routed message is in exactly one place: one live copy, undelivered or pending and within its attempts, or acknowledged, or dead-lettered; no entry is finished twice |
| `Delivery.QueueHoldsTheDead` | packages/mas-server/src/mas_server/routing.py:55-79 | over every run with the queue enabled the dead-letter queue holds exactly the dead messages, once each |
| `Delivery.OnlyOwnersFinish` | packages/mas-server/src/mas_server/delivery.py:44-67 | over every run of sessions using their own leases, whatever finishes an entry does so for its pending consumer under that consumer's current lease |
| `Delivery.NextKeeps` | packages/mas-server/src/mas_server/delivery.py:122-226 | routing, reading, reclaiming, acknowledging, refusing, lease loss and take-over all keep that accounting |
| `Delivery.FinishIsFenced` | packages/mas-server/src/mas_server/routing.py:55-79 | only the pending consumer under the current lease finishes an entry, once and as asked: gone, back with the next attempt, or dead-lettered; anyone else changes nothing |
| `Delivery.MessageIsSomewhere` | packages/mas-server/src/mas_server/delivery.py:398-504 | an unsettled message has exactly one copy, which a read or a reclaim can find |
| `Delivery.LiveMessageCanBeSettled` | packages/mas-server/src/mas_server/delivery.py:398-504 | in every reachable state a message that is neither acknowledged nor dead can be acknowledged by whoever holds a lease: by a read or a reclaim and one acknowledgement |
| `Delivery.ReadHandsOver` | packages/mas-server/src/mas_server/delivery.py:30-36 | a read under the lease hands over exactly the undelivered entries up to its last one |
| `Delivery.ClaimHandsOver` | packages/mas-server/src/mas_server/delivery.py:38-42 | a claim under the lease hands over exactly the pending entries it names |
| `Delivery.RouteEnqueues` | packages/mas-server/src/mas_server/routing.py:174-190 | routing a new message puts one copy, in its first attempt, behind all entries |
| `DeliveryKeys.DeliveryKeys.ReadNew` | packages/mas-server/src/mas_server/delivery.py:30-36 | the oldest undelivered entries, at most `count`, become pending under the lease; a short batch means none is left |
| `DeliveryKeys.PickIdle` | packages/mas-server/src/mas_server/delivery.py:38-42 | up to the replied cursor every idle pending entry is picked, and nothing else; it stops early only with a full batch or after ten times as many entries |
| `DeliveryKeys.DeliveryKeys.ClaimIdle` | packages/mas-server/src/mas_server/delivery.py:38-42 | under the lease exactly the picked entries move to the claiming owner |
| `DeliveryKeys.DeliveryKeys.SweepIdle` | packages/mas-server/src/mas_server/delivery.py:298-310 | reclaiming on from each cursor, every idle pending entry ends with the reclaiming owner and no other changes |
| `DeliveryKeys.DeliveryKeys.Acknowledge` | packages/mas-server/src/mas_server/delivery.py:44-56 | in place, the fenced acknowledgement of the run model |
| `DeliveryKeys.DeliveryKeys.Requeue` | packages/mas-server/src/mas_server/delivery.py:57-67 | in place, the fenced requeue with the next attempt |
| `DeliveryKeys.DeliveryKeys.CommitDelivery` | packages/mas-server/src/mas_server/routing.py:55-79 | in place, the fenced dead-letter commit |
| `DeliverySession.ReadBudget` | packages/mas-server/src/mas_server/delivery.py:312-327 | each selected stream is asked for at least one entry, all together for at most the free capacity |
| `DeliverySession.ReadBudgetIsUsed` | packages/mas-server/src/mas_server/delivery.py:312-327 | both streams are selected as soon as there is room for two, each asked for as many entries as fit, up to fifty |
| `DeliverySession.AvailableIsRoom` | packages/mas-server/src/mas_server/delivery.py:94-105 | what is available can be added without passing a limit, and no more |
| `DeliverySession.FirstTakes` | packages/mas-server/src/mas_server/delivery.py:30-42 | a read or claim takes every entry that has fewer than its count before it |
| `DeliverySession.RoundFits` | packages/mas-server/src/mas_server/delivery.py:315-327 | what a read returns fits into the capacity it was chosen from, in order and above the group's marks |
| `DeliverySession.LoopKeeps` | packages/mas-server/src/mas_server/delivery.py:257-353 | over any turns: both limits hold, no two deliveries in flight name one entry, every delivery made is in flight unless acknowledged and in the outbound queue, in order, unless sent, and nothing else removes any |
| `DeliverySession.TurnKeeps` | packages/mas-server/src/mas_server/delivery.py:283-353 | a turn keeps all of that and both marks, which only grow, and after what it reclaims delivers exactly the deliverable entries it reads, in the order of the streams |
| `DeliveryTurns.TurnServes` | packages/mas-server/src/mas_server/delivery.py:283-353 | what a turn does for the entries of both streams: it reclaims idle entries of the shared stream and then of its own, and reads new ones of the stream whose turn it is and of the other, each up to its budget; its marks pass no deliverable entry undelivered; it delivers nothing else, and without room nothing |
| `DeliveryTurns.LoopServes` | packages/mas-server/src/mas_server/delivery.py:276-353 | over any turns each turn of a session serves its entries like that |
| `DeliveryTurns.ReclaimServes` | packages/mas-server/src/mas_server/delivery.py:398-504 | reclaiming from a stream serves its first idle entries within room and batch size |
| `DeliveryTurns.NothingSkipped` | packages/mas-server/src/mas_server/delivery.py:312-353 | everything new up to the last entry of a read is part of it |
| `DeliveryTurns.TurnOnly` | packages/mas-server/src/mas_server/delivery.py:283-353 | whatever a turn delivers is a deliverable entry of one of the two streams |
| `DeliverySession.RoundKeeps` | packages/mas-server/src/mas_server/delivery.py:312-353 | the selected streams together fit into the capacity, every deliverable entry read is delivered, and the new marks are the group's |
| `DeliverySession.ReclaimedKeeps` | packages/mas-server/src/mas_server/delivery.py:398-504 | reclaim stays within the free capacity, keeps the marks, and delivers every deliverable entry it claims that is not in flight |
| `DeliverySession.ReclaimDelivers` | packages/mas-server/src/mas_server/delivery.py:451-504 | every deliverable claimed entry is delivered, or was in flight when the claim began |
| `DeliverySession.BatchKeeps` | packages/mas-server/src/mas_server/delivery.py:337-353 | a batch within the capacity keeps the books and raises the mark to its last entry |
| `DeliverySession.BatchDeliveries` | packages/mas-server/src/mas_server/delivery.py:337-353 | a read batch adds exactly its deliverable entries, in order, to what was delivered |
| `DeliverySession.Serve` | packages/mas-server/src/mas_server/delivery.py:257-353 | from the connection on, over any turns of reclaims and reads and any acknowledgements and sends in between, the session is in the state of the loop's specification |
| `DeliverySession.Session.StreamLoop` | packages/mas-server/src/mas_server/delivery.py:276-353 | over any number of turns the in-place loop equals its specification |
| `DeliverySession.Session.LoopTurn` | packages/mas-server/src/mas_server/delivery.py:283-353 | one turn of reclaim and read in place equals its specification, marks and order of the streams included (what that specification serves: `TurnServes`) |
| `DeliverySession.Session.ReadRound` | packages/mas-server/src/mas_server/delivery.py:312-353 | the read asks for the specified batches and delivers them in place |
| `DeliverySession.Session.Reclaim` | packages/mas-server/src/mas_server/delivery.py:398-504 | claiming and delivering in place equals its specification |
| `DeliverySession.Session.DeliverBatch` | packages/mas-server/src/mas_server/delivery.py:337-353 | the batch loop equals its specification; the in-flight cap is never reached midway |
| `DeliverySession.Session.Deliver` | packages/mas-server/src/mas_server/delivery.py:506-613 | with capacity exactly one delivery is queued and tracked and nothing dropped; an attempt out of range changes nothing |
| `DeliverySession.Session.DropOldest` | packages/mas-server/src/mas_server/sessions.py:199-218 | drops nothing while there is room, else exactly as many of the oldest as make room for one, in the queue and in flight |
| `DeliverySession.Session.Release` | packages/mas-server/src/mas_server/sessions.py:142-160 | other coroutines only free capacity; exactly the acknowledged and sent deliveries go |
| `Replies.AtMostOneReply` | packages/mas-server/src/mas_server/routing.py:81-151 | over every run at most one reply per correlation, from the asked agent to the asking instance; no readable receipt outlives the request's deadline |
| `Replies.NextKeeps` | packages/mas-server/src/mas_server/ingress.py:102-149 | creating, forgetting, answering and expiring requests keep that invariant |
| `Replies.RetryIsIdempotent` | packages/mas-server/src/mas_server/routing.py:131-151 | while the receipt lives, the same sender and fingerprint get the original message identity from either script, others are refused, nothing changes |
| `Replies.AnsweredStaysAnswered` | packages/mas-server/src/mas_server/routing.py:81-130 | no further reply is accepted after the first, even once its receipt expired |
| `Replies.AcceptedIff` | packages/mas-server/src/mas_server/routing.py:81-130 | without a readable receipt a reply is accepted if and only if its request is pending as read and both its key and its deadline lie ahead; the answer is its identity, its envelope joins the stream of the asking instance, the request is no longer pending, and the receipt is readable exactly until the earlier of the two ends |
| `Replies.RetryGetsIdentity` | packages/mas-server/src/mas_server/routing.py:81-151 | from its acceptance until its receipt ends, whatever happens meanwhile, a repeated reply gets its identity from either script and any other is refused |
| `Replies.RequestIsAnswerable` | packages/mas-server/src/mas_server/ingress.py:102-122 | a new request can be answered by its target until its timeout and deadline, as long as it is neither withdrawn nor answered |
| `Replies.ReplyKeys.CommitReply` | packages/mas-server/src/mas_server/routing.py:81-130 | the script in place equals its function |
| `Leases.LiveLeaseIsOwned` | packages/mas-core/src/mas_core/sessions.py:89-92 | over every run a locally live lease that was not released is the owner in Redis |
| `Leases.OneLiveOwner` | packages/mas-core/src/mas_core/sessions.py:113-157 | two live unreleased leases on one instance have one owner |
| `Leases.RunKeeps` | packages/mas-core/src/mas_core/sessions.py:24-57 | acquire, renew, release and time keep keys, index and leases in agreement |
| `Leases.StaleChangesNothing` | packages/mas-core/src/mas_core/sessions.py:37-57 | a renewal or release by a former owner changes neither key nor index |
| `Leases.GivenIff` | packages/mas-core/src/mas_core/sessions.py:24-48 | a lease is acquired if and only if nobody owns the instance and renewed if and only if the caller does; it then lasts exactly its time, passed deadlines leave the index, other instances are untouched |
| `Leases.ReleaseFrees` | packages/mas-core/src/mas_core/sessions.py:49-57 | the owner's release frees that instance at once, and only that one |
| `Leases.LiveLeaseRenews` | packages/mas-core/src/mas_core/sessions.py:139-157 | over every run a broker that renews a live lease it has not given back keeps it |
| `Leases.ActiveAgrees` | packages/mas-core/src/mas_core/sessions.py:58-62 | `active` answers yes exactly when some owner key has time left |
| `Leases.ActiveEndsFirst` | packages/mas-core/src/mas_core/sessions.py:58-62 | at its last millisecond a readable key is no longer counted |
| `Leases.LeaseKeys.Acquire` | packages/mas-core/src/mas_core/sessions.py:24-36 | the script in place equals its function |
| `Leases.LeaseKeys.Renew` | packages/mas-core/src/mas_core/sessions.py:37-48 | the script in place equals its function |
| `Leases.LeaseKeys.Score` | packages/mas-core/src/mas_core/sessions.py:32-33 | passed deadlines leave the index, the new one enters |
| `Leases.LeaseKeys.ReleaseOwned` | packages/mas-core/src/mas_core/sessions.py:49-57 | the script in place equals its function |
| `SpanWalk.Latency` | packages/mas-core/src/mas_core/observability.py:613-633 | the walk finds the nearest sender within 64 spans and the time from its start exactly if that lies within five minutes; stopping at a visited span never hides a sender |
| `Aggregator.NoMessageCountedTwice` | packages/mas-core/src/mas_core/observability.py:901-1157 | across failed flushes, lost answers of lease and commit calls, stale memories, handovers and scripts that run late or again, every committed window counts distinct messages, once each, provided the settings leave room and no span starts in the future, or at each commit the scores have not expired since its base was committed; late commits, and those they overtake, must have read the scores under the lease and lower none, and late lease calls grant nothing to a flush under way |
| `Aggregator.BaseIsCommitted` | packages/mas-core/src/mas_core/observability.py:901-916 | unless an unheard grant followed another's commit or a late commit of its own ran, an aggregator that owns the lease holds and works from the last committed checkpoint, or an empty one because none could be read |
| `Aggregator.LostGrantDecides` | packages/mas-core/src/mas_core/observability.py:905-913 | the flush after an unheard grant works from the committed checkpoint exactly when nobody else has committed since its memory |
| `Aggregator.GrantDecides` | packages/mas-core/src/mas_core/observability.py:905-913 | at any point of a flush an unheard grant leaves its aggregator up to date exactly when nobody has committed since what it holds |
| `Aggregator.LateCommitDecides` | packages/mas-core/src/mas_core/observability.py:1129-1154 | a late commit leaves its aggregator up to date exactly when that has neither a memory nor a base yet |
| `Aggregator.FencedOutChangesNothing` | packages/mas-core/src/mas_core/observability.py:400-407 | without the lease a commit changes no key and the memory is dropped |
| `Aggregator.NextKeeps` | packages/mas-core/src/mas_core/observability.py:396-452 | every step of every aggregator, late scripts included, keeps the invariant of keys, memories, phases and commits still on their way |
| `Aggregator.CommitKeepsVersion` | packages/mas-core/src/mas_core/observability.py:427-430 | a commit that lowers no score leaves the scores of every window another aggregator may still use, however old its memory |
| `Aggregator.BaseStillSound` | packages/mas-core/src/mas_core/observability.py:1031-1042 | the old samples of a flush that holds the lease are scored, or out of its window |
| `Aggregator.MeasureIsClean` | packages/mas-core/src/mas_core/observability.py:1031-1057 | what a flush measures under the lease counts each message once, however late it is committed |
| `Aggregator.LateKeepsOwn` | packages/mas-core/src/mas_core/observability.py:400-452 | a late commit leaves the flush its aggregator is in sound |
| `AggregatorCases.LostGrantDropsCounts` | packages/mas-core/src/mas_core/observability.py:905-913 | a run in which a lost grant makes an aggregator commit from an old checkpoint, so that a scored message disappears from the window |
| `AggregatorCases.CrampedSettingsCountTwice` | packages/mas-core/src/mas_core/observability.py:1031-1057 | for all settings without room some run of past spans counts a message twice |
| `AggregatorCases.FutureSpansCountTwice` | packages/mas-core/src/mas_core/observability.py:1031-1057 | for all settings some run with a span from the future counts a message twice |
| `AggregatorLate.UnownedReadingCountsTwice` | packages/mas-core/src/mas_core/observability.py:1031-1057 | for all roomy settings a run of past spans, proper but for a late commit that read the scores without the lease, counts a message twice |
| `AggregatorLate.LoweredScoreCountsTwice` | packages/mas-core/src/mas_core/observability.py:427-430 | for all settings a run of past spans, proper but for a late commit that lowers a score, counts a message twice |
| `AggregatorLate.LateGrantCountsTwice` | packages/mas-core/src/mas_core/observability.py:905-909 | for all roomy settings a run of past spans, proper but for a late grant to a flush under way, counts a message twice |
| `LatencyWindow.AggregateDistinct` | packages/mas-core/src/mas_core/observability.py:1038-1057 | a flush that saw a score for every message of its old window commits a window without repeats |
| `LatencyWindow.AggregateScored` | packages/mas-core/src/mas_core/observability.py:1038-1058 | all of a committed window is scored after pruning, in every window that begins no earlier |
| `LatencyWindow.ScoresSurvive` | packages/mas-core/src/mas_core/observability.py:427-430 | scoring and pruning leave every later window scored unless a score is lowered |
| `LatencyWindow.AggregateMatches` | packages/mas-core/src/mas_core/observability.py:1038-1070 | in every window the stored buckets count exactly the measured samples |
| `LatencyWindow.FreshCountsOnce` | packages/mas-core/src/mas_core/observability.py:1045-1058 | each measurable message of the window is counted exactly once unless already completed |
| `LatencyWindow.CountLatencies` | packages/mas-core/src/mas_core/observability.py:1038-1058 | the measuring loop equals its specification |
| `LatencyWindow.Gather` | packages/mas-core/src/mas_core/observability.py:648-651 | the loop gathers the buckets of the window |
| `LatencyWindow.PointPercentile` | packages/mas-core/src/mas_core/observability.py:648-660 | gathering, sorting, ranking in double precision and scanning together report the exact percentile of the window's latencies rounded up, however the samples are split into seconds, and none exactly for an empty window |
| `AggregatorKeys.AggregatorKeys.Renew` | packages/mas-core/src/mas_core/observability.py:396-399 | renewal succeeds exactly for the owner of an unexpired lease |
| `AggregatorKeys.AggregatorKeys.SetIfAbsent` | packages/mas-core/src/mas_core/observability.py:906-909 | taking the lease succeeds exactly when none is live |
| `AggregatorKeys.AggregatorKeys.Commit` | packages/mas-core/src/mas_core/observability.py:400-452 | fenced: checkpoint, scores, pruning and expiry together, or nothing |
| `AggregatorKeys.AggregatorProcess.Lead` | packages/mas-core/src/mas_core/observability.py:904-915 | the lease calls and the choice of the base; a lost answer leaves the memory as it was |
| `AggregatorKeys.AggregatorProcess.Flush` | packages/mas-core/src/mas_core/observability.py:901-1157 | an undisturbed flush, with either answer lost or not, leaves the keys and the memory of its specification |
| `AggregatorKeys.FlushIsItsSteps` | packages/mas-core/src/mas_core/observability.py:901-1157 | that specification is the four steps of the run model in sequence, or one unheard lease call |
| `Percentile.Scan` | packages/mas-core/src/mas_core/observability.py:652-660 | the scan over sorted bins finds the value of the nearest rank, one that was counted |
| `Percentile.SortedItems` | packages/mas-core/src/mas_core/observability.py:656-656 | the bins in increasing order, each with its count |
| `Percentile.HistogramPercentileIsExact` | packages/mas-core/src/mas_core/observability.py:648-660 | the percentile of rounded-up latencies is the exact percentile rounded up, for every sample list |
| `Percentile.PercentileExists` | packages/mas-core/src/mas_core/observability.py:652-660 | every rank has an exact percentile among the latencies |
| `Percentile.RankIsExact` | packages/mas-core/src/mas_core/observability.py:655-655 | `ceil(samples * 0.95)` in double precision is the exact rank below 2^48 samples |
| `Circuit.CountersRefineHistory` | packages/mas-gateway/src/mas_gateway/circuit_breaker.py:133-246 | over every event sequence, non-writing events anywhere in between, what is read later: the closed failure count is the length of the trailing failure run with gaps within the window, below the threshold; the half-open success count is a trailing run of successes; an expired key forgets nothing a next failure could continue |
| `Circuit.ClosingNeedsSuccesses` | packages/mas-gateway/src/mas_gateway/circuit_breaker.py:150-162 | a half-open circuit closes only after `success_threshold` successes with no failure between |
| `Circuit.OpensIff` | packages/mas-gateway/src/mas_gateway/circuit_breaker.py:163-177 | over every run a failure opens a closed circuit if and only if it ends a run of at least `failure_threshold` failures with gaps within the window, at its own time |
| `Circuit.SuccessesClose` | packages/mas-gateway/src/mas_gateway/circuit_breaker.py:150-162 | a half-open circuit counts its successes and closes with exactly the one that completes the threshold |
| `Circuit.FailureReopens` | packages/mas-gateway/src/mas_gateway/circuit_breaker.py:163-177 | a failure while half-open opens the circuit again |
| `Circuit.ReadmitsIff` | packages/mas-gateway/src/mas_gateway/circuit_breaker.py:139-148 | an open circuit admits, as half-open, exactly once its timeout is over |
| `Circuit.OpeningIsTimed` | packages/mas-gateway/src/mas_gateway/circuit_breaker.py:163-177 | an opening records its time and its key outlasts two timeouts |
| `Circuit.NoEarlyReadmission` | packages/mas-gateway/src/mas_gateway/circuit_breaker.py:139-148 | until the timeout has passed no event of any broker, and no expiry, re-admits |
| `Circuit.ExpiryCloses` | packages/mas-gateway/src/mas_gateway/circuit_breaker.py:227-235 | a stored open or half-open circuit is admitted as closed exactly once its key has expired |
| `Circuit.ExpiryComesLate` | packages/mas-gateway/src/mas_gateway/circuit_breaker.py:227-235 | over every event sequence that is more than two timeouts after the recorded opening |
| `Circuit.ClosedWithoutSuccess` | packages/mas-gateway/src/mas_gateway/circuit_breaker.py:227-235 | a half-open circuit that closes without a single success |
| `Circuit.CircuitKey.ResolveCheck` | packages/mas-gateway/src/mas_gateway/circuit_breaker.py:99-107 | a snapshot due no transition answers alone and nothing is written; otherwise the full check runs; the answer is the checked state of a key the call has read, and never admits a circuit before its timeout |
| `Circuit.CircuitKey.ApplyEvent` | packages/mas-gateway/src/mas_gateway/circuit_breaker.py:181-246 | the watch loop answers from the key its last round read, and writes only there and only a changed state |
| `RateLimit.LimitsHold` | packages/mas-gateway/src/mas_gateway/rate_limit.py:52-81 | over every call sequence whose calls count exactly, no minute or hour window, half-open at either end, holds more admissions than its limit, despite expiry and pruning |
| `RateLimit.CountsExactlyIff` | packages/mas-gateway/src/mas_gateway/rate_limit.py:52-81 | after any calls, a call counts exactly its window if and only if its key has not expired when it runs or the window is empty, and no earlier script forgot an admission of the window by expiry or by a later reading |
| `RateLimit.OrderlyIsExact` | packages/mas-gateway/src/mas_gateway/rate_limit.py:129-143 | when scripts run in the order of their readings with delays that do not grow, every call counts exactly |
| `RateLimit.OrderlyLimitsHold` | packages/mas-gateway/src/mas_gateway/rate_limit.py:129-143 | so no window of such a run holds more admissions than its limit |
| `RateLimit.ExpiredKeyForgets` | packages/mas-gateway/src/mas_gateway/rate_limit.py:72-75 | a call that reads before and runs after the expiry of the key exceeds a limit of one |
| `RateLimit.LaterReadingForgets` | packages/mas-gateway/src/mas_gateway/rate_limit.py:52-53 | a call that runs after one which read later exceeds a limit of two |
| `RateLimit.StoredWithinLimit` | packages/mas-gateway/src/mas_gateway/rate_limit.py:63-75 | no run stores more scores in a window than its limit |
| `RateLimit.AdmittedIffRoom` | packages/mas-gateway/src/mas_gateway/rate_limit.py:52-81 | a call that counts exactly is admitted exactly when both windows of the real admission history have room |
| `RateLimit.AllowedMeans` | packages/mas-gateway/src/mas_gateway/rate_limit.py:72-82 | the answer to an admitted call names the window with less room left, the shorter if both are alike, its limit, what is left of it and when its oldest admission leaves |
| `RateLimit.RemainingIsExact` | packages/mas-gateway/src/mas_gateway/rate_limit.py:76-82 | repeating an admitted call at once is admitted just as often as the remaining quota says |
| `RateLimit.RefusedMeans` | packages/mas-gateway/src/mas_gateway/rate_limit.py:65-70 | a refusal names the first full window, the shorter one first, and leaves nothing |
| `RateLimit.WindowOpensExactly` | packages/mas-gateway/src/mas_gateway/rate_limit.py:52-70 | after any calls and a rejection by a window with a positive limit, that window has room for a later call exactly when its oldest admission has left or its key has expired |
| `RateLimit.OpensOnTime` | packages/mas-gateway/src/mas_gateway/rate_limit.py:52-70 | on one clock a later call without delay finds that window open exactly from its oldest admission's leaving on |
| `RateLimit.ReportedReset` | packages/mas-gateway/src/mas_gateway/rate_limit.py:57-70 | at the reported reset time the window is open if and only if printing did not round down; 0.00005 s later always, as early before never, and exactly then for times of at most four decimals |
| `RateLimit.ReportedResetCanBeEarly` | packages/mas-gateway/src/mas_gateway/rate_limit.py:60-60 | a call at exactly the reported reset time is rejected again |
| `RateLimit.RateLimiter.Check` | packages/mas-gateway/src/mas_gateway/rate_limit.py:33-82 | the script in place, with the time its caller read and the time it runs, equals its function |
| `AgentState.CopiesAreVersions` | packages/mas-agent/src/mas_agent/agent.py:224-345 | with any agents and with lost, late or repeated messages, each copy is the server's state at that copy's revision; at equal revisions it is the server's fields over the defaults |
| `AgentState.NothingIsOverwritten` | packages/mas-server/src/mas_server/state.py:35-53 | every server change is one revision on top of the newest; an update keeps every field it does not name at its last committed value |
| `AgentState.NextKeeps` | packages/mas-server/src/mas_server/state.py:29-53 | every request, service and response keeps copies, requests and responses true to the versions they name |
| `AgentState.ChangesReach` | packages/mas-agent/src/mas_agent/agent.py:249-263 | the fields sent turn the old state into the validated one |
| `AgentState.LoadedIsOverlay` | packages/mas-agent/src/mas_agent/agent.py:318-332 | loading a snapshot gives its fields over the defaults |
| `AgentState.UpdateTakesEffect` | packages/mas-agent/src/mas_agent/agent.py:224-272 | an update asked for, served and accepted without interference leaves agent and server with the validated state at one revision |
| `AgentState.ResetTakesEffect` | packages/mas-agent/src/mas_agent/agent.py:274-292 | a reset likewise leaves both with the defaults |
| `AgentState.ReadTakesEffect` | packages/mas-agent/src/mas_agent/agent.py:299-344 | a read that is served and accepted brings any agent in step with the server |
| `AgentState.UpdatedMeans` | packages/mas-agent/src/mas_agent/agent.py:245-250 | an update is refused exactly for an unknown field or a refused value; values taken as they are reach exactly the named fields |
| `AgentState.OnlyChangesAreSent` | packages/mas-agent/src/mas_agent/agent.py:249-263 | exactly what the caller named or validation changed is sent |
| `AgentState.ScriptsMean` | packages/mas-server/src/mas_server/state.py:29-53 | the scripts take effect exactly at the expected revision; an update writes its fields and keeps the others, counting a revision only if it writes any |
| `AgentState.StateKeys.UpdateState` | packages/mas-server/src/mas_server/state.py:35-45 | succeeds exactly at the expected revision; nothing else changes the keys |
| `AgentState.StateKeys.ResetState` | packages/mas-server/src/mas_server/state.py:46-53 | likewise, clearing the fields |
| `AgentState.Agent.UpdateState` | packages/mas-agent/src/mas_agent/agent.py:224-272 | with other instances writing before and after it is served, by any number of revisions, commits locally exactly when validated, answered and still current; otherwise the copy stays, and the server has what the scripts and the others wrote |
| `AgentState.Agent.ResetState` | packages/mas-agent/src/mas_agent/agent.py:274-292 | the same for a reset to defaults |
| `AgentState.Agent.LoadState` | packages/mas-agent/src/mas_agent/agent.py:299-344 | loads exactly the fields that validate, else keeps the copy |

## Left out

- Transport, TLS, identity tokens, management HTTP, command line, configuration and the dashboard.
- Redis `TYPE` checks, malformed-value replies of the scripts, WAIT/WAITAOF and file synchronisation; a failed confirmation is a commit whose caller sees an error.
- `hash_version` 1 rows, CSV and JSON export, the rotating file sink, security-event logging beyond sharing the append path.
- Authorization patterns, data scanning and masking: their answers are inputs of `Policy`.
- JSON string quoting and parsing, and pydantic validation: functions with the laws stated at their use (`Library`, `Model.Lawful`).
- Delivery is modelled for one stream and one consumer group at a time; the loop's sleeping, back-off and group creation are not modelled.
- Early-reply buffer, peer validation, alerts, trace waterfalls, broker traffic counters and span journal: easier than what is proved.
- LatencyWindow.CountLatencies: the pending spans are inputs, so eviction from the span cache is not modelled.
- AggregatorKeys.AggregatorProcess.Flush: one clock reading and no interference; the interleaved case is `Aggregator.NextKeeps`.
- RateLimit.ReportedReset: times are seconds between 10^9 and 10^10, where 14 digits leave four decimals.
- AuditVerify.VerifyChain: the segments are read at one moment; a checkpoint without a configured archive directory, which is answered with false, is not modelled.
- Circuit.CountersRefineHistory: WATCH is taken to abort on the expiry of a key read, as Redis does since 6.0.9; the manual `reset_circuit` is not an event.
- Percentile.RankIsExact: double rounding enters through its error bound and the fact that it never crosses an integer, not bit by bit.
- DeliveryKeys.DeliveryKeys.SweepIdle: entries that become idle or are delivered during the sweep wait for the next one.
