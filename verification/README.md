# Control-plane protocols, verified in Dafny

This project models the stateful core of the AITP control plane and proves what
its protocols guarantee over every run. Postgres tables are maps; every SQL
statement, or transaction where the source opens one, is one atomic step; and
any number of requests, workers and replicas interleave between steps. Where the
source updates tables or fields in place, a class does so too, with each method
specified by the step functions that the theorems are about.

`dafny verify dfyconfig.toml` checks everything.

| file | part of the system |
|---|---|
| `Text`, `JsonText`, `CanonicalJson`, `JsonReader`, `Utf8`, `Scalars`, `EventId` | the canonical JSON printer, a parser that undoes it, its UTF-8, content-derived event ids |
| `SignedContent` | what signed content does to compact JWS and to envelopes, said of their segments and members |
| `JsonProblem`, `Batch`, `FanOut`, `Sessions` | ingest: what a batch stores and reports, fan-out across replicas, the session projection |
| `JsonPaths`, `BatchItems`, `Deliveries`, `SessionColumns` | the same, said of the data: paths in a payload, why an item is refused, who gets which delivery, where each column comes from |
| `Delegations`, `Revocation`, `Dates`, `Monitor` | the delegation graph, the revocation cascade, and the dates and reasons it records |
| `Outbox`, `Settlement`, `Disorder` | webhook delivery: ownership of attempts, what bounds them and what makes an outcome final, runs that need the conditions |
| `Breaker`, `BreakerHistory`, `Probes` | the circuit breaker, what its entry says of the events so far, and both together with the outbox |
| `Enrollment` | one-time enrollment tokens |
| `Jwks` | the JWKS cache of the trust anchors |
| `Idempotency`, `Answers` | the idempotency store, and what its callers read |
| `RateLimit`, `RateWindows` | the rate limiter: its bound, and which requests of a window it allows |

## What the proofs found

Each of these is a lemma below, usually next to the exact condition under which
the expected property does hold.

- A number such as `1e999` parses to infinity and prints as `null`, so two
  different JSON values can share a canonical text; values without such a number
  never do.
- A literal string that spells `jws-signing-input:` followed by the signing input
  of a compact JWS is identified with that JWS.
- A delegation reported after one of its own children leaves that child active
  although an ancestor is revoked. A single step keeps the table equal to the
  from-scratch meaning if and only if a stated guard holds. Apart from that the
  order of reports matters only through the first parent each jti is reported
  with.
- A `tct.revoked` that names a delegation's own jti marks its proper descendants
  only; an operator entry above a row is what revokes it.
- The outcome writes of a webhook attempt are not guarded by status. A finished
  delivery is final exactly when every attempt open on it is harmless, which is
  stated attempt by attempt; in particular a delivered one with no open attempt
  is final in every run, and a failed one never is. Attempts exceed the retry
  budget by no more than the crashes after a claim plus the attempts that started
  late: on a row not pending, or with another attempt open on it. Runs from an
  empty table show a delivered row reopened, a delivered row failed, a 410 sweep
  undone, and the bound met.
- A breaker probe whose attempt loses its claim, finds its target unsafe or
  throws is never reported. The breaker then rejects every attempt until an
  operator resets it, unless another attempt that was admitted can still post;
  when that is so is stated exactly.
- An enrollment token is accepted until the end of its expiry second while its
  row may be purged from the start of that second on, and in that window it
  registers a second time.
- At most `2 * limit - 1` requests pass in any interval as long as one window,
  one fewer than two full windows, and that many can pass.
- Re-sending a session log is safe for a session that is already projected, and
  otherwise exactly when its first `handshake.started` carries a usable timestamp
  (or both requests stamp it alike) and every report ahead of it is overwritten by
  a later one: an event without a timestamp is stamped anew by every request. A
  re-send repairs failed statements under a like condition; a row made by a second
  start, because the insert of the first one failed, is never corrected.
- Probes are spaced in every run from a new breaker exactly when one success
  closes the circuit.

## Model

| member | source | states |
|---|---|---|
| CanonicalJson.Canonical | src/lib/audit/event-id.ts:88-135 | the explicit-stack loop stops on every value and returns exactly the text of the structurally recursive printer, with and without signed content |
| CanonicalJson.SortedKeys | src/lib/audit/event-id.ts:123-125 | the filtered keys, in strictly ascending code-unit order |
| Text.LessIff | src/lib/audit/event-id.ts:123-125 | the order of keys: the first code unit at which two differ decides, a text before those it begins |
| JsonReader.RoundTrip | src/lib/audit/event-id.ts:88-135 | parsing a canonical text, followed by anything, gives back the value's normal form and exactly the rest, whatever the nesting, keys and escapes |
| JsonText.UnquoteEscape | src/lib/audit/event-id.ts:106-109 | reading a quoted string back recovers every code unit, lone surrogates and control characters included |
| JsonText.EscapedIff | src/lib/audit/event-id.ts:106-109 | exactly which code units are escaped, and which of them in two characters; the rest in six, in lower-case hexadecimal |
| EventId.PrintsAlike | src/lib/audit/event-id.ts:88-135 | two values print alike if and only if their signed-content normal forms are equal |
| EventId.PrintNormal | src/lib/audit/event-id.ts:97-125 | printing with signed content is plain printing of the normal form |
| EventId.NormalIdempotent | src/lib/audit/signed-content.ts:21-50 | normalising twice is normalising once |
| EventId.ContentIdempotent | src/lib/audit/signed-content.ts:21-34 | a tagged signing input is never taken for a compact JWS again |
| EventId.KeptNormal | src/lib/audit/signed-content.ts:44-50 | dropping envelope signatures and normalising members leaves the set of kept keys unchanged |
| SignedContent.JwsPrints | src/lib/audit/signed-content.ts:21-34 | a compact JWS `h.p.s` prints as its tagged `h.p`; nothing of the signature segment is left |
| SignedContent.JwsAlikeIff | src/lib/audit/signed-content.ts:15-34 | two compact JWS print alike if and only if their header and payload segments agree, whatever their signatures |
| SignedContent.OtherTextPrints | src/lib/audit/signed-content.ts:21-34 | a string that is no compact JWS with such a header prints as itself |
| SignedContent.SignatureCountsIff | src/lib/audit/signed-content.ts:36-50 | the signature text of an object counts if and only if the object holds no manifest and no revocation list |
| SignedContent.MemberCounts | src/lib/audit/signed-content.ts:44-50 | every other member counts, envelope or not: changing it changes the text exactly when its own text changes |
| EventId.Unambiguous | src/lib/audit/event-id.ts:88-135 | without signed content, values free of overflowed numbers print alike if and only if they are equal |
| EventId.VerbatimKeepsFinite | src/lib/audit/event-id.ts:106-109 | plain printing keeps a value recoverable if and only if no number in it overflowed |
| EventId.OverflowCollides | src/lib/audit/event-id.ts:106-109 | an overflowed number and `null` under the same key print alike |
| EventId.PrintNoNul | src/lib/audit/event-id.ts:106-130 | canonical text never contains U+0000 |
| EventId.PrintWellFormed | src/lib/audit/event-id.ts:106-130 | canonical text never contains a lone surrogate, whatever the strings in the value contain |
| Utf8.EncodeInjective | src/lib/audit/event-id.ts:156-158 | UTF-8 with U+FFFD for lone surrogates tells any two texts without lone surrogates apart |
| Utf8.EncodeAppend | src/lib/audit/event-id.ts:156-158 | hashing in two updates is hashing the concatenated text |
| Scalars.EncodeIsUtf8 | src/lib/audit/event-id.ts:156-158 | the bytes of any text of Unicode scalar values are its UTF-8 as RFC 3629 defines it |
| Scalars.WellFormedIff | src/app/api/events/route.ts:134-137 | a text has no lone surrogate if and only if it is the UTF-16 of some scalar values |
| EventId.LastNulSeparates | src/lib/audit/event-id.ts:156-158 | the last NUL of the hashed text determines both the producer key and the canonical text |
| EventId.HashInputIff | src/lib/audit/event-id.ts:156-158 | two events give the same bytes to the hash if and only if the producers agree (an empty fingerprint counting as none) and so do the canonical texts |
| EventId.SameIdIffSameEvent | src/lib/audit/event-id.ts:151-161 | two events with usable timestamps, whose bytes the hash does not collide, get one id if and only if producer and normal form agree |
| EventId.UntimedIdsAreDrawn | src/lib/audit/event-id.ts:151-161 | two events without a usable timestamp get one id if and only if the random ids drawn for them are equal, whatever they hold |
| SignedContent.SameIdIffSameJws | src/lib/audit/event-id.ts:151-161 | two reports of an event that differ in one member's compact JWS get one id if and only if header and payload agree |
| EventId.TaggedTextCollides | src/lib/audit/event-id.ts:99-104 | a literal string equal to a tagged signing input prints like the JWS it imitates |
| JsonProblem.JsonValueProblem | src/app/api/events/route.ts:128-166 | the early-exit walk stops on every value and decides: too deep if some container is below level 64, else NUL if one occurs in any key or string, else lone surrogate likewise |
| JsonPaths.VerdictIs | src/app/api/events/route.ts:128-166 | the verdict, said of paths: too deep if a path of 64 steps or more leads to an array or object; else NUL, else a lone surrogate, if a path leads to a string or key that holds one |
| Batch.CheckItem | src/app/api/events/route.ts:179-194 | an item's first problem: a too-deep payload before columns, columns before grants, grants before the payload's other problems |
| BatchItems.FirstProblemIs | src/app/api/events/route.ts:179-194 | the field and the reason reported for an item, from what is found in its payload, columns and grants |
| Batch.IngestedIff | src/app/api/events/route.ts:179-194 | an item is ingested if and only if payload and grants are clean and every column fits; it is exempt from the size check if and only if its payload is too deep |
| Batch.EventSink.Post | src/app/api/events/route.ts:265-442 | for the entries the body carries: refused whole (400; 413 over 500 entries; 413 with the size and type of the first payload too large) and then nothing written; otherwise the stored table, the first twenty errors and the four counts, each said of the entries |
| Batch.EventSink.IngestEvents | src/lib/audit/event-store.ts:35-45 | one insert, row by row: stored rows stay, every listed id is stored afterwards, and it returns one record, as stored, for each id that appeared in the table, also when the list repeats an id |
| Batch.AddedIsNew | src/lib/audit/event-store.ts:35-45 | the returned records have distinct ids, exactly those the table lacked |
| Batch.CollectCandidates | src/app/api/events/route.ts:316-321 | every object entry with its place in the caller's array and its first problem |
| Batch.FindOversize | src/app/api/events/route.ts:327-340 | the first payload over the cap among those not too deep to measure, if any |
| Batch.FirstOversizeIs | src/app/api/events/route.ts:327-340 | the payload reported is that of the first entry, in the caller's order, that is not too deep and longer than 65536 |
| Batch.Validate | src/app/api/events/route.ts:351-364 | the accepted events in order, the full count of dropped ones, and the first twenty errors |
| Batch.Dedupe | src/app/api/events/route.ts:378-384 | the loop over seen ids keeps one event per id |
| Batch.ErrorsAreExact | src/app/api/events/route.ts:354-361 | the errors name every refused object and no other, by its index in the caller's array, in order, with its first problem |
| Batch.PassedIsExact | src/app/api/events/route.ts:351-364 | the events accepted are those of the clean entries, all of them, in the caller's order |
| Batch.ItemsAreCounted | src/app/api/events/route.ts:316-364 | object entries = ingested + dropped; other entries count as neither |
| Batch.UniqueIsFirsts | src/app/api/events/route.ts:378-384 | deduplication keeps exactly the first occurrence of each id, in order |
| Batch.InsertIsExact | src/lib/audit/event-store.ts:35-45 | stored rows stay as they were, each new id is stored with its first event, nothing else appears |
| Batch.DedupeThenInsert | src/app/api/events/route.ts:378-385 | deduplicating before the insert does not change what is stored |
| Batch.DuplicatesAreRepeats | src/app/api/events/route.ts:386-388 | `duplicates` is the number of events stored before the batch or occurring earlier in it |
| Batch.AddedIsMissing | src/app/api/events/route.ts:385-386 | `inserted` is the number of distinct ids that were not stored, and those are the ids returned |
| FanOut.EveryRunBalances | src/app/api/events/route.ts:374-435 | over any interleaving with crashes, purges and webhook edits: wins of an id = purges + (1 if stored); publishes + lost + pending = wins; delivery rows per webhook never exceed wins |
| FanOut.AtMostOnce | src/app/api/events/route.ts:408-435 | an id not purged is published at most once and gets at most one delivery row per webhook |
| FanOut.PublishedOnceIff | src/app/api/events/route.ts:413-422 | a stored, never purged id is published exactly once if and only if the replica that inserted it neither crashed first nor is still on its way |
| FanOut.DeliveredOnce | src/lib/webhooks/service.ts:175-188 | a finished request has exactly one row for every planned delivery whose insert did not fail |
| Deliveries.RowsAreExact | src/lib/webhooks/service.ts:175-188 | in every run a finished request has written exactly one row per event it inserted and webhook that, as then listed, was active and subscribed to the event's type or to all, for the six deliverable types, failed inserts aside; a failed listing yields none |
| Deliveries.InsertedAreNew | src/app/api/events/route.ts:374-386 | in every run a request inserts exactly the first of each id it was asked for that the table then lacked |
| Deliveries.CanFinish | src/app/api/events/route.ts:413-435 | from any state a request that has not crashed can finish |
| FanOut.WinsAgainIff | src/lib/retention.ts:69-81 | a repeated event wins its id again, and is fanned out again, exactly when its row is gone |
| Sessions.SessionMonitor.Observe | src/lib/sessions/monitor.ts:14-56 | one event inserts the session if absent or overwrites the columns of its kind, and touches no other session; times are the event's timestamp, or the request's where it has none |
| Sessions.SessionMonitor.ObserveAll | src/app/api/events/route.ts:417-421 | projecting a batch is projecting, in order, the events whose statement went through |
| Sessions.RowIsFold | src/lib/sessions/monitor.ts:14-56 | a session's row depends on its own handshake events only |
| Sessions.FoldIsSettle | src/lib/sessions/monitor.ts:32-51 | after any updates each column holds what its last writer wrote |
| SessionColumns.RowColumns | src/lib/sessions/monitor.ts:19-52 | a session has a row once it started; parties, run, boundary and start time are those of its first start in the log; completion, grants, error and status those of the last later event that writes them |
| Sessions.ResendIff | src/lib/sessions/monitor.ts:19-52 | posting a prefix and then the whole log, against posting the log once at the second request's time: the same row, if and only if the session was already projected, or the start that made it carries a timestamp (or was stamped alike twice) and every report ahead of it is covered later |
| Sessions.ResendTableIff | src/app/api/events/route.ts:408-421 | the same whole table, if and only if that holds of every session that was not projected |
| Sessions.UntimedStartMoves | src/app/api/events/route.ts:29-31 | a start without a timestamp, posted twice, keeps the first request's time, while posting it once gives the second's |
| Sessions.RepairIff | src/lib/sessions/monitor.ts:53-55 | whichever statements failed the first time, re-sending the whole log repairs the row if and only if the session was already projected, or the first start that went through makes the same new row, start time included, as the log's first start does in the second request, and every report ahead of that one is covered later |
| Sessions.LostFirstStartStays | src/lib/sessions/monitor.ts:19-31 | with two starts of which the first failed to insert, the second one's row survives the re-send |
| Sessions.StartedFirstIsSafe | src/lib/sessions/monitor.ts:19-52 | logs in which every session opens with a start that carries a timestamp can be re-sent freely: the whole table is the same |
| Sessions.EarlyCompleteIsNotSafe | src/lib/sessions/monitor.ts:32-42 | a completion ahead of its start is ignored once and applied on the re-send |
| Delegations.DescendantsLeast | src/lib/tcts/monitor.ts:407-422 | the rows below a root are the least set that holds its children and is closed under children, cycles included |
| Delegations.RecursiveUnion | src/lib/tcts/monitor.ts:407-422 | the recursive query stops on every table, cyclic ones included, with the least set containing its start and closed under children |
| Delegations.DescendantsQuery | src/lib/tcts/monitor.ts:471-487 | the cascade's query returns exactly the rows below the root |
| Delegations.TreeQuery | src/app/api/delegations/route.ts:63-72 | `root_jti` answers the root and everything below it, or nothing if there is no such row |
| Delegations.AboveWithRow | src/lib/tcts/monitor.ts:446-455 | exactly which ancestries hold after a row is inserted: the old ones and those through the new link |
| Revocation.RunIsWriteOnce | src/lib/tcts/monitor.ts:382-487 | in every run flag, date and reason stay consistent, parent links never change, and a recorded revocation is never cleared or rewritten |
| Dates.TctRevokedWrites | src/lib/tcts/monitor.ts:398-422 | the row of every TCT and delegation after `tct.revoked`: the TCT and the active rows below it are dated by the event, the latter as inherited; nothing else changes |
| Dates.DelegationRevokedWrites | src/lib/tcts/monitor.ts:461-487 | likewise for `delegation.revoked`: explicit exactly for the row itself |
| Dates.EntryPutWrites | src/app/api/revocation/entries/route.ts:253-266 | a first entry holds date, note and issuer as given; a later one keeps them and fills in only a missing issuer |
| Dates.DelegationReportWrites | src/lib/tcts/monitor.ts:446-455 | a delegation reported late is revoked, as inherited, exactly when its parent is known as revoked, with the date of the entry, else of the TCT, else of the row |
| Dates.TctReportWrites | src/lib/tcts/monitor.ts:382-391 | a TCT reported late takes the date of its entry |
| Dates.DatesComeFromSteps | src/lib/tcts/monitor.ts:324-488 | in every run the date of an entry or TCT is that of a revoking step with its jti, the date of a revoked delegation that of one whose jti is the row or above it |
| Revocation.NoOverRevocation | src/lib/tcts/monitor.ts:401-487 | in every run, cyclic graphs included, a revoked delegation is itself, or has above it, a jti that was the subject of a revocation |
| Revocation.WholeTreeRevoked | src/lib/tcts/monitor.ts:458-488 | after `delegation.revoked(root)` every row of the root's tree is revoked |
| Revocation.ExactIff | src/lib/tcts/monitor.ts:324-336 | the table equals the from-scratch meaning if and only if every revoked row is justified and revocation is closed downward |
| Revocation.IncrementalEqualsFromScratch | src/lib/tcts/monitor.ts:324-488 | after any in-order run, interleaved in any way, with no cascade outstanding, a row is revoked exactly when a source of revocation is above it or it was revoked itself |
| Revocation.ExactStepIff | src/lib/tcts/monitor.ts:329-336 | one step keeps an exact table exact if and only if its guard holds |
| Revocation.UnrevokedChildBreaks | src/lib/tcts/monitor.ts:446-455 | reporting a revoked parent after an active child always leaves the table wrong |
| Revocation.UnsourcedRevocationBreaks | src/lib/tcts/monitor.ts:401-423 | revoking a jti that leaves no tombstone, with active rows below, always leaves the table wrong |
| Revocation.OperatorKeepsExact | src/app/api/revocation/entries/route.ts:253-281 | an operator revocation, entry and cascade, always keeps an exact table exact |
| Revocation.RevokedIffEntryAbove | src/app/api/revocation/entries/route.ts:253-281 | in runs of reports, parents first, and operator revocations a delegation is revoked if and only if some jti above it has an entry |
| Revocation.OrderDoesNotMatter | src/lib/tcts/monitor.ts:324-336 | any two parents-first runs with the same entry jtis and the same first-reported parent of each delegation revoke the same delegations |
| Revocation.ReceivedContents | src/lib/tcts/monitor.ts:446-455 | the links a run leaves are the first-reported parents, and later reports of a jti change nothing |
| Revocation.FirstParentDecides | src/lib/tcts/monitor.ts:446-455 | the same three reports, one jti with two parents, revoke it or not depending on which came first |
| Revocation.ChildFirstIsMissed | src/lib/tcts/monitor.ts:446-455 | reported child first, the same three reports leave the child active |
| Revocation.NoTombstoneIsKept | src/lib/tcts/monitor.ts:395-424 | from the empty table, revoking a parent that was never reported marks the child there is, which no source accounts for, and the opposite order leaves the child active |
| Monitor.ResolveIssuer | src/app/api/revocation/entries/route.ts:161-211 | an issuer resolves exactly when somebody names one and everybody who does names the same; it is required exactly when nobody does |
| Monitor.IssuerForIff | src/app/api/revocation/entries/route.ts:161-211 | the issuer of an entry: the one named by the recorded TCT (if an AID), the entry there or the caller, if they name exactly one |
| Monitor.TctMonitor.RecordIssuedTcts | src/lib/tcts/monitor.ts:368-393 | each parsed TCT is inserted once, revoked at insert if an entry exists |
| Monitor.TctMonitor.RecordRevocation | src/lib/tcts/monitor.ts:395-424 | the TCT and every active delegation below it revoked and dated by the event, each row as it is afterwards; a missing jti does nothing |
| Monitor.TctMonitor.RecordDelegation | src/lib/tcts/monitor.ts:426-456 | inserts the row once, revoked at insert if its parent is |
| Monitor.TctMonitor.RecordDelegationRevocation | src/lib/tcts/monitor.ts:458-488 | the row itself explicit, every active row below it inherited, all dated by the event |
| Monitor.TctMonitor.CascadeFrom | src/lib/tcts/monitor.ts:407-422 | marks exactly the unrevoked rows below a jti, with the date and as inherited |
| Monitor.TctMonitor.UpsertEntry | src/app/api/revocation/entries/route.ts:253-266 | the first entry stays; only a missing issuer is filled in |
| Monitor.TctMonitor.PostEntry | src/app/api/revocation/entries/route.ts:161-281 | refused without a write exactly when the jti is missing or not exactly one issuer is named; otherwise the entry, the TCT and the rows below it as they are afterwards, and the one issuer named is answered |
| Outbox.OneOwnerPerAttempt | src/lib/webhooks/service.ts:244-259 | in every interleaving `attempts` equals the claims won, each attempt number has one owner, only owners POST and only once, so POSTs never exceed `attempts` |
| Outbox.BackoffGrows | src/lib/webhooks/service.ts:401-404 | the first retry waits 30 seconds, each later one four times as long as the one before |
| Settlement.AttemptsBound | src/lib/webhooks/service.ts:194-408 | in every run attempts are at most max(1, budget) + crashes after a claim + attempts that started late |
| Settlement.ChangesIff | src/lib/webhooks/service.ts:209-408 | the exact row after any step on a delivered or failed row; it changes if and only if an open attempt's outcome write says something else |
| Settlement.ReopensIff | src/lib/webhooks/service.ts:209-408 | exactly which writes make a finished row pending, a delivered one failed, a failed one delivered |
| Settlement.FinalIff | src/lib/webhooks/service.ts:201-408 | a delivered row keeps its outcome in every continuation, and a failed one in every continuation that starts no attempt on it, if and only if each attempt open on it is harmless |
| Settlement.TerminalIsAbsorbing | src/lib/webhooks/service.ts:201-408 | one step: a finished row whose open attempts are harmless stays, and they stay harmless |
| Settlement.DeliveredIsFinal | src/lib/webhooks/service.ts:201 | a delivered row with no attempt open on it is final in every run, whatever happened before |
| Settlement.FailedIsNeverFinal | src/lib/webhooks/service.ts:201-238 | every failed row can still change in some continuation |
| Settlement.BudgetAndAbsorption | src/lib/webhooks/service.ts:333-408 | after a history of one attempt at a time, started on pending rows and without a sweep inside: attempts within max(1, budget) + crashes after a claim, a delivered row final, a failed one final until an attempt starts on it |
| Disorder.OverlapReopensDelivered | src/lib/webhooks/service.ts:229-236 | from an empty table, two overlapping attempts reopen a delivered row and claim it beyond the budget without a crash; the bound on attempts is met |
| Disorder.FailedStartExceedsBudget | src/lib/webhooks/service.ts:201 | from an empty table, an attempt started on a failed row reopens it and the budget is exceeded, one attempt at a time |
| Disorder.SweepIsOverwritten | src/lib/webhooks/service.ts:365-408 | from an empty table, with no late start, a sibling's 410 fails a row inside its attempt and the attempt's retry write undoes it |
| Disorder.InactiveFailsDelivered | src/lib/webhooks/service.ts:209-215 | from an empty table, an attempt that finds its webhook switched off turns a delivered row into a failed one |
| Outbox.WebhookService.AttemptDelivery | src/lib/webhooks/service.ts:194-415 | one undisturbed call leaves exactly the tables that a worker's steps leave, and they are spelt out row by row: untouched, failed, postponed, or one attempt counted and finished |
| Outbox.WebhookService.FinishAttempt | src/lib/webhooks/service.ts:286-408 | from a won claim on: delivered; failed; on 410 failed with the webhook off and its pending rows failed; or pending until now + the backoff while attempts stay below the budget |
| Outbox.WebhookService.TryClaim | src/lib/webhooks/service.ts:244-258 | the claim wins exactly when the row is pending with the attempts that were read, and then adds one |
| Outbox.WebhookService.SetStatus | src/lib/webhooks/service.ts:229-236 | an outcome write, unguarded by status |
| Outbox.WebhookService.FailPending | src/lib/webhooks/service.ts:365-373 | fails exactly the pending rows of one webhook |
| Breaker.WebhookCircuitBreaker.EntryFor | src/lib/webhooks/circuit-breaker.ts:158-171 | an unknown webhook gets a closed entry, and no other entry changes |
| Breaker.WebhookCircuitBreaker.ShouldAttempt | src/lib/webhooks/circuit-breaker.ts:67-85 | the decision and the one entry it changes |
| Breaker.WebhookCircuitBreaker.RecordSuccess | src/lib/webhooks/circuit-breaker.ts:87-101 | the entry after a success |
| Breaker.WebhookCircuitBreaker.RecordFailure | src/lib/webhooks/circuit-breaker.ts:103-118 | the entry after a failure |
| Breaker.WebhookCircuitBreaker.Reset | src/lib/webhooks/circuit-breaker.ts:121-129 | a closed entry, whatever was there |
| Breaker.WebhookCircuitBreaker.GetSnapshot | src/lib/webhooks/circuit-breaker.ts:131-144 | what is reported, with the next probe time while open |
| BreakerHistory.ClosedCountsFailures | src/lib/webhooks/circuit-breaker.ts:87-118 | in every run from a new entry, while closed, the failure count is that of the failures since the last success or reset |
| BreakerHistory.SinceIsStreak | src/lib/webhooks/circuit-breaker.ts:99-106 | that count is the number of failures in the longest stretch at the end of the run without a success or reset |
| BreakerHistory.LeavesClosedIff | src/lib/webhooks/circuit-breaker.ts:103-113 | the circuit leaves closed exactly on a failure that brings this count to the threshold |
| BreakerHistory.StaysClosedIff | src/lib/webhooks/circuit-breaker.ts:87-118 | a new breaker stays closed throughout a run if and only if no failure completes such a count |
| BreakerHistory.LeavesOpenIff | src/lib/webhooks/circuit-breaker.ts:70-80 | open turns half open exactly on an attempt a reset timeout after the circuit last opened, and closes only on a reset |
| BreakerHistory.LeavesHalfOpenIff | src/lib/webhooks/circuit-breaker.ts:90-117 | half open opens exactly on a failure and closes exactly on a reset or on the success that completes the closing threshold |
| BreakerHistory.AdmittedIff | src/lib/webhooks/circuit-breaker.ts:67-85 | an attempt is admitted exactly when closed, or a reset timeout after the last opening, or half open with no attempt since the last outcome |
| BreakerHistory.SnapshotTells | src/lib/webhooks/circuit-breaker.ts:131-144 | every field of a snapshot, counted from the run, and that the next probe time is when an open circuit admits again |
| Breaker.AlwaysCoherent | src/lib/webhooks/circuit-breaker.ts:67-129 | in every run closed means fewer failures than the threshold and no opening time, and, closing at one success, half open means a probe in flight |
| Breaker.OneProbeAtATime | src/lib/webhooks/circuit-breaker.ts:81-84 | half open with its probe out admits nothing until an outcome or a reset |
| Breaker.ProbeSpacing | src/lib/webhooks/circuit-breaker.ts:67-129 | between an opening and the next closing or reset the first admitted attempt comes a reset timeout later and k of them span k - 1 timeouts, whatever stale outcomes arrive |
| Breaker.SuccessFreesProbe | src/lib/webhooks/circuit-breaker.ts:89-97 | with any closing threshold above one, a run from a new entry admits two attempts at one instant |
| Breaker.SpacingIff | src/lib/webhooks/circuit-breaker.ts:67-129 | probes are spaced in every run from a new entry if and only if the closing threshold is at most one |
| Probes.FreesIff | src/lib/webhooks/service.ts:201-346 | with the probe out, some continuation without a reset frees the breaker if and only if some admitted attempt can still post: it holds its claim, or has seen the current attempts of a row that is not delivered or can still be spoilt |
| Probes.DoomedStays | src/lib/webhooks/circuit-breaker.ts:81-84 | otherwise the probe stays out in every run without a reset |
| Probes.StarvedIsDoomed | src/lib/webhooks/circuit-breaker.ts:81-84 | with nobody admitted left to report, no continuation without a reset frees the breaker |
| Probes.RunsRemember | src/lib/webhooks/service.ts:194-259 | what FreesIff asks of the workers, that they have seen their row's webhook and no more attempts than it has, holds throughout every run that starts with it |
| Probes.BreakerHears | src/lib/webhooks/service.ts:225-390 | in every run of both systems a webhook's breaker is what its own history makes of it: attempts that asked, answers to posts (a 410 resets), operators' resets |
| Probes.StarvesIff | src/lib/webhooks/service.ts:225-301 | with the probe out, a step leaves nobody admitted to report on it exactly when the last attempt that may still post loses its claim, finds its target unsafe, or throws |
| Probes.StarvedStays | src/lib/webhooks/circuit-breaker.ts:81-84 | then the probe stays out, with nobody to report, until an operator resets the breaker |
| Probes.StarvedRejects | src/lib/webhooks/service.ts:225-238 | and every attempt that asks the breaker is rejected, at any time |
| Probes.BreakerStarves | src/lib/webhooks/service.ts:286-301 | it happens: from an empty outbox and a new breaker, after one refused attempt and one unsafe probe |
| Enrollment.AcceptedUntil | src/lib/registry/enrollment.ts:187-218 | a token is not expired exactly until the end of its expiry second |
| Enrollment.AcceptedIff | src/lib/registry/enrollment.ts:187-218 | a token is accepted exactly in time, for its subject, with its jti and the digest of the manifest presented |
| Enrollment.TokenLives | src/lib/registry/enrollment.ts:170-218 | a new token is accepted, for its AID and manifest only, until the end of the second 300 seconds after the one it was minted in |
| Enrollment.CommitsMatchPurges | src/lib/registry/register.ts:14-23 | in every run registrations with a token = purges of its jti + (1 if its row is there), each for the AID and manifest it was minted for |
| Enrollment.AtMostOneCommit | src/lib/registry/register.ts:14-23 | at most one registration commits if no purge removes the row of a token that a request holds or could still accept |
| Enrollment.CanCommitIffLive | src/lib/registry/jti-store.ts:19-33 | without a row, another registration can commit if and only if some request holds the token or one could still accept it |
| Enrollment.PurgeWindow | src/lib/retention.ts:126-140 | after a purge the token is still acceptable exactly until its expiry second is over |
| Enrollment.PurgeIsExact | src/lib/retention.ts:126-140 | a purge removes the listed rows that have expired and no others |
| Enrollment.AgentIsLastCommit | src/lib/registry/register.ts:14-23 | in every run an AID is registered if and only if a commit was for it, with the manifest of the last one |
| Enrollment.SecondCommit | src/lib/registry/register.ts:14-23 | from the start, a seven-step run that purges inside the expiry second registers twice with one token |
| Enrollment.Registry.ConsumeEnrollmentJti | src/lib/registry/jti-store.ts:19-33 | inserts the jti if absent and tells whether it did |
| Enrollment.Registry.RegisterConsumingJti | src/lib/registry/register.ts:14-23 | consume and upsert both happen or neither does |
| Jwks.CacheIsCoherent | src/lib/trust-anchors/jwks-refresher.ts:88-116 | over every interleaving of passes, PATCHes, creations and deletions a cached key set was fetched from the anchor's current URLs, and cache and date are null together |
| Jwks.PatchKeepsCacheIff | src/app/api/trust-anchors/[id]/route.ts:119-142 | a PATCH writes unless the anchor is missing or another of its namespace has the issuer; it keeps the cache if and only if neither URL changes, otherwise clears key set and date |
| Jwks.CreateIff | src/app/api/trust-anchors/route.ts:104-125 | an anchor is created, without a cache, unless another of its namespace has the issuer |
| Jwks.SelectsTheStale | src/lib/trust-anchors/jwks-refresher.ts:70-82 | a pass selects exactly the anchors without a cache date or dated before the threshold, with their URLs |
| Jwks.FetchThenWrite | src/lib/trust-anchors/jwks-refresher.ts:88-116 | on the interleaved table a fetched key set is written, dated, onto the anchor it was fetched for if that still has the URLs, and counted; else nothing is |
| Jwks.GuardIsExact | src/lib/trust-anchors/jwks-refresher.ts:98-108 | writing a fetched key set keeps the table coherent if and only if the anchor still has the URLs it was fetched from |
| Jwks.Refresher.RefreshAnchor | src/lib/trust-anchors/jwks-refresher.ts:88-123 | fetches for a row selected earlier and writes only if the anchor still has its URLs; a failed fetch, a patched or a deleted anchor leave the table as it was |
| Jwks.Refresher.RefreshRows | src/lib/trust-anchors/jwks-refresher.ts:88-125 | over any earlier selection, the loop refreshes and counts exactly the anchors that still have the selected URLs and whose key set could be fetched |
| Jwks.Refresher.RefreshStaleJwks | src/lib/trust-anchors/jwks-refresher.ts:66-129 | one undisturbed pass refreshes exactly the stale, fetchable anchors; a pass already running makes it a no-op |
| Idempotency.KeyIff | src/lib/idempotency.ts:73-82 | a header is a key exactly when it is up to 255 units, solid at both ends, between blanks, and free of control characters |
| Idempotency.EveryAnswerIsACommit | src/lib/idempotency.ts:137-220 | in every run: rows ever stored for a cell = purges + (1 if stored), each a cacheable answer of one of the cell's handlers; every store answer repeats one, flagged exactly when it differs from the call's own |
| Idempotency.AllAnswersAgree | src/lib/idempotency.ts:174-219 | without a purge all store answers of a cell have one status and body, and a call whose insert went through finds a row |
| Idempotency.LateCallsNeverRun | src/lib/idempotency.ts:137-151 | a call that begins after the commit never reaches its handler and can only be answered with that row, flagged |
| Answers.StoreAnswersAreRows | src/lib/idempotency.ts:137-214 | in every run a store answer has the status of a row committed for its cell and that row's body (none for 101, 204, 205, 304), flagged exactly when the row is not its own handler's answer; every committed row is a stable answer of one of the cell's handlers |
| Answers.OneStatusAndBody | src/lib/idempotency.ts:174-219 | any two store answers of a cell never purged have equal status and body, those of the stored row |
| Answers.OwnAnswers | src/lib/idempotency.ts:115-220 | in every run an answer not from the store carries its own handler's status and body, or refuses a bad key |
| Answers.RetriesReadTheRow | src/lib/idempotency.ts:137-151 | a call that begins after the commit and is answered reads the row's status and body, flagged |
| Idempotency.IdempotencyStore.WithIdempotency | src/lib/idempotency.ts:110-221 | one undisturbed call stores and answers exactly what its steps do: the handler's own answer, the refusal of a bad key, or the stored row with the handler not run; and what is in the table afterwards |
| Idempotency.IdempotencyStore.InsertIfAbsent | src/lib/idempotency.ts:176-190 | the first writer wins |
| RateLimit.RateLimiter.CheckRequest | src/lib/rate-limit.ts:39-67 | the decision and the one bucket and drop total it changes |
| RateLimit.RateLimiter.Sweep | src/lib/rate-limit.ts:75-80 | removes exactly the buckets whose window has ended |
| RateLimit.GcChangesNoDecision | src/lib/rate-limit.ts:75-80 | runs with the same requests, swept wherever and however often, decide alike |
| RateLimit.DropTotalsAreDenials | src/lib/rate-limit.ts:56-59 | a bucket name's drop total grows by exactly its denials |
| RateWindows.FirstOfEachWindow | src/lib/rate-limit.ts:39-67 | after any run with other actors and sweeps, exactly the first `limit` requests of each of an actor's windows are allowed, with what remains and when the window ends |
| RateWindows.BucketsAreSeparate | src/lib/rate-limit.ts:49 | two actors share a bucket exactly when bucket name and key agree, for names without a colon |
| RateWindows.DisabledAllows | src/lib/rate-limit.ts:45-48 | a limit of zero or less allows everything and books nothing |
| RateLimit.WindowBound | src/lib/rate-limit.ts:39-67 | any half-open interval as long as the window sees at most 2 * limit - 1 allowed requests of a key |
| RateLimit.BoundIsAttained | src/lib/rate-limit.ts:52-60 | a run in which 2 * limit - 1 requests pass in one window's length |

## Left out

- Cryptography: signature checks, HMAC, SHA-256, base64url decoding and UUID layout. `isHeader` stands for "this segment decodes to a JSON object with a string `alg`"; `digest` is any function on bytes, assumed free of collisions only for the two inputs compared.
- JavaScript number rendering and date parsing: a number is the text JSON.stringify gives it (so -0 is the number 0), a timestamp an integer or absent; a session event holds both its own, if any, and the time of the request that carries it. A stored response body is its JSON text, key order aside; the size of a payload is a parameter.
- Objects are maps, so the order of keys on the wire and repeated keys, resolved by JSON.parse, are not visible.
- SQL text, connection pooling and isolation anomalies: a statement or transaction is one atomic step.
- HTTP plumbing, request bodies' own validation, authentication, column-length checks (their first failure is a parameter of an ingest item), DNS and URL safety (a parameter of a delivery attempt).
- Parsing and verifying TCTs and delegations: the monitors receive parsed reports, `None` for one that was skipped.
- The due-time selection and slicing of the retry flush and of the fan-out: the step systems let any attempt and any enqueue happen at any time, which covers them.
- Deleting webhooks with their deliveries, and the purge of delivery rows: a delivery row stays for the whole run.
- The `updatedAt` and last-seen stamps, and the status codes and error texts of rows.
- The event bus, the live stream, metrics, logging, audit records and exports.
- Settlement.BudgetAndAbsorption: finality is claimed after orderly histories only, because the outcome writes carry no status guard; Settlement.FinalIff says when a finished row is final after any history, and `Disorder` shows what happens otherwise.
- Revocation.IncrementalEqualsFromScratch: covers in-order runs only, because a late parent is not cascaded to earlier children; Revocation.ExactStepIff says step by step what in-order must mean.
- EventId.SameIdIffSameEvent: needs usable timestamps, because an event without one gets a random id.
- Breaker.ProbeSpacing: for a closing threshold of at most one, which is the default; Breaker.SpacingIff shows it fails for every other.
- Probes.StarvesIff: one process, whose breaker is its own; a restart, which forgets the breaker, is not a step, and an attempt that throws is one kind of crash.
- The source's comments promise that re-sending events is harmless to projections and repairs them; Sessions.ResendIff and Sessions.RepairIff follow the code, which is narrower.
