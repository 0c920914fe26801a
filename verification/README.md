# Delivery of requests to a partner: a verified model

A requester's request is stored in a table, put onto a FIFO queue by an enqueuer that reads the table's stream,
sent to a recipient as an XML document by workers that may overlap and die at any point, and marked with the
outcome. The recipient answers every MessageId once and later sends back the client's decision through a webhook.
This project models that system in Dafny 4.11 and proves what its design claims: safety over whole runs of all
actors together, and the round trips, conservation laws and convergence of its parts.

`dafny verify dfyconfig.toml` checks everything.

## How it is built

- `Protocol` is the step system: the API, any number of enqueuers and delivery attempts with their program
  counters, the queue with its dead-letter queue, the exchange store, and the recipient's handler threads. A step
  may always fail to follow (a crash), an answer may be lost or come late, and records and messages may come again.
  `NoLoss`, `Agreement`, `Histories` and `Overlap` prove inductive invariants over all of its runs.
- `World`, `DeliveryService`, `EnqueueService` and `SubmissionService` have the form of the source: methods with
  loops that call other systems. Every call may be preceded by any number of steps of everybody else and may throw
  although it took effect. Each method is proved to make only steps of the step system, in the order of the code, and
  the calls it has made are kept in order, with what came of them: the contracts say which calls were made, and
  `DeliveryCalls` what an outcome owes to them.
- `RequestsTable`, `RequestStatus`, `DeliveryMessage`, `StreamImages`, `DeliveryQueue`, `Recipient`, `Replies`,
  `ReplyReader` are the pieces both use.
- `SubmissionXml` (the printer), `XmlReader` (a reader written from XML 1.0), `SubmissionRoundTrip` and
  `SubmittedDocument` (the two together), `EventTime` (ECMA-262, section 21.4.1), `Tracing`,
  `Strings`.
- `DecisionRegister`, `DecisionService`, `WebhookService`: the client's decision, from the recipient's page to the
  table.
- `ApiKeyProvider`, `Migrations`, `LogArchive`, `RequestsStore`: state of its own, under interleavings and failures.

The run in `Overlap` reaches `sent` step by step, so the premises of the theorems about runs can be met.

## Where a promise does not hold as stated

- An exchange record matches the status of its request if the request's attempts never overlap; if they do, a slow
  attempt may overwrite it (`Overlap.OverlapMayOverwriteTheRecord`). From any state on it stays right exactly if it is
  right and no attempt is still on the way to another record (`Overlap.TheRecordStaysRightExactly`).
- A stored decision time reads back exactly for the years 0 to 9999 of UTC; an event in a zone can leave them
  (`EventTime.WhatIsStoredReadsBack`, `EventTime.AStoredTimeMayNotReadBack`).
- The decision register is right after every event exactly when no event comes again with a later time
  (`DecisionRegister.RightExactlyWithoutRedating`, `DecisionRegister.ARedatedEventIsLost`).
- A `ready` detail names a cached request exactly unless an answer is about another id
  (`RequestsStore.ReadyAlongExactlyWithoutMixups`, `RequestsStore.AMixedUpAnswerShowsNothing`).
- A send has a deduplication id of its own exactly if no id imitates a retry of another
  (`DeliveryMessage.DeduplicationIdsCollideExactly`); the ULIDs that the API stores do not.

## Model

| member | source | states |
|---|---|---|
| NoLoss.NoRequestIsLost | backend/src/services/enqueue-service.ts:45-120 | Over every run of the whole pipeline (crashes, replayed stream records, dropped duplicate sends, overlapping workers, retries): a request in `created` or `queued` with retry count r has an unacknowledged stream record of (id, r), or a message of (id, r) waiting, handed out or dead-lettered |
| Agreement.TheTwoSystemsAgree | backend/src/services/delivery-service.ts:154-346 | Over every run, with duplicates, crashes, lost answers and retries: `sent` implies an accepted row at the recipient, an accepted row excludes `rejected`, `rejected` implies a refused row or a document that was never sent, and no id is both accepted and refused |
| Agreement.WhatWasCreatedIsSent | backend/src/repositories/dynamodb-request-repository.ts:87-116 | From its creation on, over every run: a request holds exactly the content it was created with, and every document that any attempt sends for it carries its id and its subject |
| Histories.TheRecordPrecedesTheStatus | backend/src/services/delivery-service.ts:332-346 | Whatever crashes: a `sent` or `rejected` request has an exchange record, and the one attempt that wrote the status had itself saved a record with the matching outcome before |
| Histories.EverythingIsCounted | backend/src/services/delivery-service.ts:377-430 | Over every run: entries into `failed` = retries, plus one exactly while failed; entries into `sent` and `rejected` are 1 exactly when that is the status; announcements never outnumber entries into terminal statuses, and each belongs to its own attempt's write |
| Histories.FinalIsFinal | backend/src/domain/request-status.ts:11-16 | Once `sent` or `rejected`, always so; retry counts never fall and the content of a request never changes, between any two states of a run |
| Histories.EveryReceiveIsOneAttempt | backend/src/services/delivery-service.ts:52-58 | Over every run: each receive of a message, up to the limit, is exactly one attempt that knows its number, and no message is dead-lettered before the attempt that knows itself to be the last |
| Overlap.WithoutOverlapTheRecordMatches | backend/src/services/delivery-service.ts:167-172 | If the attempts of one request have never overlapped (others may), its stored record is of the outcome that belongs to its final status, and it stays so whatever overlaps later |
| Overlap.TheRecordStaysRightExactly | backend/src/services/delivery-service.ts:332-375 | For any `sent` or `rejected` request in any state: its stored record is right in every state that can follow if and only if it is right now and no attempt of the request is building, calling, or holding an outcome that does not belong to the status |
| Overlap.OverlapMayOverwriteTheRecord | backend/src/services/delivery-service.ts:359-366 | Otherwise it can go wrong: a complete run, step by step, that ends with status `sent` and a stored record that says `retry` |
| DeliveryMessage.DeduplicationIdInjective | backend/src/domain/delivery-message.ts:40-49 | For ids without a hyphen, as every ULID is, two sends have the same deduplication id only if they are of the same request and retry count |
| DeliveryMessage.DeduplicationIdsCollideExactly | backend/src/domain/delivery-message.ts:40-49 | For any ids and counts: two sends share a deduplication id exactly when they are the same send, or one is the first send of a request whose id is the other's retry id |
| DeliveryMessage.HyphenatedIdsCollide | backend/src/domain/delivery-message.ts:47-49 | An instance of the other case, with a hyphen in an id |
| RequestStatus.LivesEndOnce | backend/src/domain/request-status.ts:25-37 | Over any life of a request along the allowed moves: returns to `created` and failures alternate, and `sent` or `rejected` is entered at most once, as the last status |
| RequestsTable.StatusAndDecisionCommute | backend/src/repositories/dynamodb-decision-repository.ts:37-46 | A status move and a decision write on one item give the same item, and the same two answers, in either order |
| RequestsTable.DynamoTable.Create | backend/src/repositories/dynamodb-request-repository.ts:87-116 | The conditional put: a free id gets an item with exactly this content, in `created`, without count or decision, and one INSERT record; nothing at all happens when the key exists, and nothing to other items |
| RequestsTable.DynamoTable.Retry | backend/src/repositories/dynamodb-request-repository.ts:148-209 | The conditional update: exactly a failed request becomes `created`, with the count raised by one in the same write, one stream record and the rest as it was; otherwise nothing changes and the answer tells which case it is |
| RequestsTable.DynamoTable.MoveTo | backend/src/repositories/dynamodb-delivery-repository.ts:68-101 | From `created` to any later status, from `queued` to a terminal one, from `failed` to `created`, and nowhere else: one write of the status alone with its stream record; `false` means nothing was written |
| RequestsTable.DynamoTable.RecordDecision | backend/src/repositories/dynamodb-decision-repository.ts:48-126 | Unknown, duplicate and applied each exactly under their condition on the stored item, ignored otherwise; an applied event leaves its decision, id and time and changes nothing else, and anything else changes nothing |
| DeliveryService.Worker.Deliver | backend/src/services/delivery-service.ts:90-119 | The batch loop, with the rest of the system running between its calls: outcomes stop at the first one that is not acknowledged, everything behind it is `notAttempted` and costs no call, the reported ids are exactly that suffix, the counts are the outcomes counted, and the calls made are those of the attempted jobs, job by job, each ending with its outcome |
| DeliveryService.Worker.DeliverOne | backend/src/services/delivery-service.ts:121-152 | A malformed body is `undeliverable` and costs no call; otherwise the attempt ends in the outcome returned, which is `error` exactly if one of the calls it depends on broke |
| DeliveryService.Worker.Process | backend/src/services/delivery-service.ts:154-330 | Every call of the attempt, in order, with its arguments: read, key, the document of the request that was read, record, status, announcement, each only where what came before leads there; it throws exactly if a call it depends on broke, and a request that was called out is on the wire |
| DeliveryService.Worker.RecordAndFinish | backend/src/services/delivery-service.ts:337-346 | The record, as given, before the status; a failed record ends it without a status write |
| DeliveryService.Worker.OnRetry | backend/src/services/delivery-service.ts:348-375 | The record of the failure is tried once and its failure tolerated; `failed` is written on the last attempt and on no other |
| DeliveryService.Worker.Finish | backend/src/services/delivery-service.ts:377-430 | One conditional status write; after an applied one, and only then, one announcement, which is there to be read if it worked; `alreadyDone` when somebody else was first |
| DeliveryService.OutcomesAreTrue | backend/src/services/delivery-service.ts:33-49 | In every reachable state a reported outcome is true of both systems: `sent` means status sent, an accepted row and a record; `rejected` means status rejected, no accepted row and a record; `failed` and `alreadyDone` likewise |
| DeliveryCalls.AttemptsBreakExactly | backend/src/services/delivery-service.ts:133-151 | An attempt ends in an error exactly if one of its calls broke, where a failed announcement and a failed record of a temporary failure do not count |
| DeliveryCalls.WhatCanBeDeliveredIsSent | backend/src/services/delivery-service.ts:154-330 | If nothing breaks, an unfinished request that XML can carry and the schema allows is sent, as a document with its id and its subject, and the outcome is what the answer proves: delivered, refused, or neither |
| DeliveryCalls.OutcomesRestOnAnswers | backend/src/services/delivery-service.ts:259-330 | `sent` only after an answer that proves delivery, `rejected` only after one that proves refusal or for a request that cannot be sent, `retry` and `failed` only after one that proves neither, and `failed` exactly on the last attempt |
| DeliveryQueue.TheQueueDrainsInOrder | backend/src/services/delivery-service.ts:90-119 | Whatever the attempts come to, however batches are cut and whatever is sent meanwhile, over any schedule of rounds and sends: messages leave in send order and exactly once, receive counts never increase along the queue nor pass the limit, and as many rounds in a row as there are remaining receives empty the queue |
| DeliveryQueue.OnceTheSendsStopAllLeaves | backend/src/handlers/delivery-worker.ts:12-34 | After any busy time of rounds and sends, a bounded number of rounds without sends empties the queue, and everything ever sent has left in the order it was sent |
| DeliveryQueue.Drain | backend/src/handlers/delivery-worker.ts:12-34 | The event source mapping as a loop terminates and everything has left in the order it was sent |
| DeliveryQueue.RoundIsProgress | backend/src/handlers/delivery-worker.ts:29-33 | One round keeps order and soundness, loses no departure, and lowers the sum of remaining receives |
| DeliveryQueue.ExitsAreTrue | backend/src/services/delivery-service.ts:44-49 | Whoever leaves in a round was acknowledged by the worker or was out of receives, and the latter is what the dead letters are for |
| DeliveryQueue.SendKeepsSound | backend/src/services/enqueue-service.ts:122-151 | A new message at the end keeps receive counts non-increasing along the queue and below the limit |
| EnqueueService.EnqueueWorker.Enqueue | backend/src/services/enqueue-service.ts:54-120 | Chunks of ten, send before mark, with the rest of the system running: every entry is offered to the queue once and in order, its fate is what the calls for it came to, the result counts the fates, every entry not reported as failed was accepted by the queue and then tried to be marked, and one counted as queued has its `queued` change in the stream |
| EnqueueService.EnqueueWorker.Send | backend/src/services/enqueue-service.ts:122-151 | The whole chunk is offered in one call, in order; refused is exactly what the queue refused, or all when the call failed; all others are accepted |
| EnqueueService.EnqueueWorker.Handle | backend/src/handlers/enqueuer.ts:63-111 | Exactly the records of the batch that are for the queue and readable are offered, once and in order; whatever of them is not reported was accepted, and what is reported was refused or its update threw; ignored and malformed records are counted exactly |
| EnqueueService.SortOut | backend/src/handlers/enqueuer.ts:73-95 | The loop that sorts records into entries, ignored and malformed: entries in order, both counts exact, every record counted once |
| StreamImages.EveryWrittenImageIsReadable | backend/src/domain/request-image.ts:10-27 | No record that the table's own writes put into the stream is malformed: it is read back as its key, id, owner and retry count, with its trace if that has at most 128 characters and without it otherwise |
| StreamImages.TheTwoTestsAgree | backend/src/handlers/enqueuer.ts:19-34 | The enqueuer's test on the raw record is the step system's test on the change |
| EnqueueService.ReadyMeansAccepted | backend/src/services/enqueue-service.ts:45-53 | In every reachable state, a record the enqueuer lets Lambda go past has had its send accepted |
| EnqueueService.AllAccountedFor | backend/src/services/enqueue-service.ts:29-38 | Failed keys, queued and already moved add up to the entries handled |
| EnqueueService.WithoutFailuresAllAreQueued | backend/src/services/enqueue-service.ts:54-120 | If the queue takes every entry of every call and no update throws, nothing is reported and every request is queued or has moved on before |
| RequestsTable.WhatIsForTheQueue | backend/src/handlers/enqueuer.ts:19-34 | Of all writes exactly creations and owner's retries are for the queue, and decisions on a request that has just been sent again, whose message is then a duplicate |
| Recipient.OneAnswerPerMessage | partner-sim/app/service.py:102-160 | In every interleaving of the look-up and insert steps of any number of threads: at most one row outside SCHEMA_INVALID per MessageId, and every accepted or RECIPIENT_REJECTED answer ever returned for it is the same status and the same reply |
| Recipient.EveryInterleavingKeepsInv | partner-sim/app/storage.py:61-105 | Over every sequence of arrivals and steps the table has unique keys, sound rows, and every thread stands on what it has read |
| Recipient.EveryInterleavingFollowsTheRules | partner-sim/app/service.py:102-127 | In every interleaving: a row under an id is the verdict that `[reject]` and `[fail]` give on a document with that id, and 503 is answered to nothing but a valid document that asks for it |
| Recipient.StepKeepsInv | partner-sim/app/storage.py:71-105 | One step of one thread, among them an insert that loses the race and a second look-up, keeps that invariant |
| Recipient.ReaderUnderstandsTheRecipient | backend/src/domain/reply-reader.ts:41-151 | Whatever arrives and whatever is stored: of the modelled answers the sender reads 200 as delivered, 400 and 422 as refused, 401, 500 and 503 as retry, and never sees a contradiction, an id mismatch or a Code/Description violation in an answer to a submission of its own id |
| SubmissionService.SubmissionHandler.Handle | partner-sim/app/service.py:67-127 | It ends in the answer it returns, for every interleaving: a document with a fault gets its early refusal; a valid one whose id is answered gets that answer again; any other gets 422 for `[reject]` in its subject, else 503 and no row for `[fail]`, else 200, unless another thread with the same id was first, and then by that one's subject; other threads' rows are kept |
| SubmissionService.SubmissionHandler.Record | partner-sim/app/service.py:129-160 | Insert, or repeat the answer of the row that was first; a reply that breaks the schema or the rule is never sent |
| SubmissionService.MessageStore.Add | partner-sim/app/storage.py:71-105 | Stored, or the earlier row with the same key, found although other threads go on in between |
| Replies.RuleViolations | partner-sim/app/replies.py:66-86 | The list is empty exactly when Code and Description exist exactly for a rejection, and names exactly what is missing or present |
| ReplyReader.ReaderIsTheContract | backend/src/domain/reply-reader.ts:41-151 | For every answer there can be: delivered and refused exactly under the conditions of the contract's table, retry exactly otherwise |
| ReplyReader.TheReaderKeepsTheAnswer | backend/src/domain/reply-reader.ts:41-60 | What is kept of an answer is its own status and body, and whether the body is a genuine reply |
| ReplyReader.TheReasonIsTrue | backend/src/domain/reply-reader.ts:41-151 | Every reason that is given for a decision is true of the answer |
| SubmissionRoundTrip.RecipientReadsTheRequest | backend/src/domain/submission-xml.ts:63-97 | For every input the builder accepts, an independent XML 1.0 reader (end-of-line handling, references, markup) finds exactly the original id, time, e-mail, recipient, subject and text, each in its own element and nothing else |
| SubmissionRoundTrip.ReadsEscaped | backend/src/domain/submission-xml.ts:46-61 | Escaped text in front of any tag is read back as exactly the text, so no field can close its element or hide in a reference |
| SubmissionXml.ChainedIsOnePass | backend/src/domain/submission-xml.ts:55-61 | The four replacements in a row are one pass that escapes every unit exactly once |
| SubmissionXml.EscapedHoldsNoMarkup | backend/src/domain/submission-xml.ts:46-54 | Escaped text holds no `<`, `>` or carriage return |
| SubmissionXml.XmlTextIsChars | backend/src/domain/submission-xml.ts:35-45 | XML can carry a text exactly if each of its code points, surrogate pairs taken together, is a character of XML 1.0 (section 2.2) |
| SubmissionXml.BuiltExactlyWhenCarried | backend/src/domain/submission-xml.ts:35-77 | A document is built exactly when XML can carry every value; otherwise the answer names exactly the elements whose value it cannot carry, each once |
| SubmissionXml.DocumentSize | backend/src/domain/submission-xml.ts:80-96 | The document takes at most 402 bytes and 5 for every UTF-16 unit of its fields, in UTF-8 |
| SubmissionXml.RequestsWithinTheLimitsFit | backend/src/clients/xsd-xml-validator.ts:22-27 | Every request within the limits of the API, with an e-mail of up to 7000 units, stays below 65,536 bytes |
| SubmittedDocument.TheStepSystemsDocumentIsTheXml | backend/src/services/delivery-service.ts:177-188 | What the step system assumes of a request's document is what builder and reader make of it: built exactly for representable texts, and read back with the request's id, subject, body and e-mail, each at its own place |
| EventTime.StoredTimeReadsBack | backend/src/services/webhook-service.ts:112-119 | The text `toISOString` stores reads back as the same instant exactly when its UTC year is 0 to 9999 |
| EventTime.EveryOffsetReadsBack | backend/src/domain/event-facts.ts:35-51 | Every zone's text of an instant, with white space around it, reads as that instant exactly when the year on that zone's calendar has four digits, and otherwise not at all |
| EventTime.TextsKeepTheOrderOfInstants | backend/src/domain/event-facts.ts:35-51 | Texts in different offsets are equal or ordered as their instants are |
| EventTime.WhatIsStoredReadsBack | backend/src/services/webhook-service.ts:112-119 | For every accepted `OccurredAt`, what the webhook stores reads back as the same instant exactly when the instant lies in the years 0 to 9999 of UTC |
| EventTime.AStoredTimeMayNotReadBack | backend/src/services/webhook-service.ts:112-119 | The other case exists: 9999-12-31T23:59:00.000-00:01, which the schema lets through, is accepted, and what is stored for it does not read back |
| EventTime.DateOfDay | backend/src/domain/event-facts.ts:45-51 | Days since 1970 and calendar dates are one to one (ECMA-262, section 21.4.1) |
| EventTime.AcceptedTimesAreTimes | backend/src/domain/event-facts.ts:48-50 | Every accepted text is a finite time that a Date can hold |
| EventTime.FractionsAreThousandths | backend/src/domain/event-facts.ts:35-51 | A fraction of a second is read as thousandths, with what is finer cut off |
| EventTime.TimesOfADay | backend/src/domain/event-facts.ts:35-51 | The times of a day are exactly 00:00:00.000 to 23:59:59.999 and 24:00, each the number of its milliseconds |
| DecisionRegister.Converges | backend/src/repositories/dynamodb-decision-repository.ts:62-72 | If each event id carries one time, any order and any duplication of deliveries leaves the event with the greatest time, the first received of equals |
| DecisionRegister.RightExactlyWithoutRedating | backend/src/repositories/dynamodb-decision-repository.ts:62-72 | For any deliveries at all: the register is right after every one of them exactly when none gives the stored event a later time |
| DecisionRegister.ARedatedEventIsLost | backend/src/repositories/dynamodb-decision-repository.ts:68-72 | Any event that comes again with any later time: the earlier one stays, which is not the latest |
| DecisionRegister.OrderDoesNotMatter | backend/src/repositories/dynamodb-decision-repository.ts:62-72 | Histories made of the same events end with the same time, and with the same event unless two events tie for the greatest time |
| DecisionRegister.TheStoredTimeNeverDecreases | backend/src/repositories/dynamodb-decision-repository.ts:62-72 | Whatever arrives, a stored decision stays and its time never goes back |
| DecisionRegister.TheRegisterStandsApart | backend/src/repositories/dynamodb-decision-repository.ts:37-46 | Over any run of creates, retries, moves and events: the decision of a request is the register of its own events, and all else is as if no event had arrived |
| DecisionService.TheDecisionIsTheLatest | partner-sim/app/decisions.py:33-73 | In every run, with resends, lost answers and crashes: each request holds the latest of the events that reached it, and each of those is a stored event of the recipient |
| DecisionService.DeliveredDecisionsCount | partner-sim/app/decisions.py:59-73 | An event shown as delivered counts for good: the request holds it or one at least as late |
| DecisionService.DecisionsAreKept | partner-sim/app/storage.py:126-161 | A decision once stored is never lost or altered, between any two states of a run |
| DecisionService.DecisionService.Decide | partner-sim/app/decisions.py:33-52 | One store, then one send, then one note of what came of it, in this order; an invalid document or a taken id is neither stored nor sent |
| DecisionService.DecisionService.Resend | partner-sim/app/decisions.py:54-57 | The same event is sent once more and noted, with one attempt more |
| DecisionService.Systems.RecordAttempt | partner-sim/app/storage.py:146-161 | The state is the result of this attempt, and the count one more than it was at that moment, although other attempts are noted at the same time |
| WebhookService.WebhookService.Receive | backend/src/services/webhook-service.ts:56-155 | The checks in order: too large, not authentic, wrong media type, unreadable, invalid, each exactly under its condition and the first fault named; a call that does not look signed costs no read of the token; applied, duplicate, ignored and unknown each exactly under their condition on what the request holds, an applied event leaves its decision, id and time and changes nothing else, and nothing is written for any other call |
| WebhookService.TheRecipientsCallsAreAuthentic | backend/src/domain/webhook-signature.ts:52-83 | A call as the recipient signs it is authentic exactly while the two clocks are at most 300 seconds apart |
| ApiKeyProvider.NothingStaleAfterInvalidate | backend/src/repositories/ssm-api-key-provider.ts:30-69 | Over every interleaving of get, answers, failures and invalidate: a get begun after an invalidate yields a value whose read was sent after it |
| ApiKeyProvider.OneReadPerGeneration | backend/src/repositories/ssm-api-key-provider.ts:34-41 | At most one read of the current generation runs at a time |
| ApiKeyProvider.ServedValuesAreFresh | backend/src/repositories/ssm-api-key-provider.ts:31-33 | What is served from memory is what SSM answered to its read less than 5 minutes ago by the clock, with no invalidate in between |
| ApiKeyProvider.AnswersAreKept | backend/src/repositories/ssm-api-key-provider.ts:30-69 | An answer to a read of the current generation is kept: for five minutes of the clock, until the next answer or an invalidate, every get yields it and asks nobody |
| ApiKeyProvider.WaitersGetTheirRead | backend/src/repositories/ssm-api-key-provider.ts:50-69 | A waiting caller gets what SSM said to the read it waits for, kept or not |
| ApiKeyProvider.NoReadIsForgotten | backend/src/repositories/ssm-api-key-provider.ts:35-38 | When no read is open, none is shared: a failed read blocks nobody |
| ApiKeyProvider.SsmApiKeyProvider.Get | backend/src/repositories/ssm-api-key-provider.ts:30-42 | Serves the fresh value, or waits for the shared read, or starts one; the new state is the step's |
| ApiKeyProvider.SsmApiKeyProvider.GoOn | backend/src/repositories/ssm-api-key-provider.ts:50-69 | Keeps an answer only if no invalidate came since its read was sent |
| ApiKeyProvider.SsmApiKeyProvider.Forget | backend/src/repositories/ssm-api-key-provider.ts:35-38 | Forgets its own read only |
| ApiKeyProvider.SsmApiKeyProvider.Invalidate | backend/src/repositories/ssm-api-key-provider.ts:44-48 | Drops value and shared read and starts a new generation |
| Tracing.TheTraceSurvivesTheQueue | backend/src/lib/tracing.ts:104-135 | To the X-Ray header and back: the same trace id and span id and exactly the sampled bit of the flags, with unrelated fields anywhere around |
| Tracing.TheTraceSurvives | backend/src/lib/tracing.ts:104-135 | The same for the header exactly as it was written |
| Tracing.TheTraceSurvivesAppendedText | backend/src/lib/tracing.ts:121-135 | The same for any text of unrelated fields appended to the header |
| Tracing.WrittenContextsReadBack | backend/src/lib/tracing.ts:66-80 | Every context that hex digits can carry is written, and reads back as the same context |
| Tracing.ReadTextsAreWrittenBack | backend/src/lib/tracing.ts:66-80 | Every valid traceparent is written again exactly as it was read |
| Tracing.WrittenExactlyWhenCarried | backend/src/lib/tracing.ts:75-80 | For any context: it is written exactly when its ids are 32 and 16 lower-case hex digits, not all zeros, and its flags are one byte |
| Migrations.FindMigrations | partner-sim/app/migrate.py:38-60 | The files in order, or an error exactly when there are none, one is misnamed, or the numbers are not 1, 2, 3, ... each once |
| Migrations.Database.Apply | partner-sim/app/migrate.py:94-115 | All of a file and its version number, or nothing of it, wherever it is interrupted |
| Migrations.Database.Migrate | partner-sim/app/migrate.py:63-91 | After any start, interrupted anywhere: the schema is files 1 to user_version applied in order, each committed exactly once; the version never falls and reaches the newest known file exactly on success; a newer database is refused and left alone |
| Migrations.OldDatabasesCatchUp | partner-sim/app/migrations/0001_initial.sql:9-13 | If file 1 changes nothing on an unversioned old database, every later version has the schema of a new database |
| Migrations.SortedIsNumbered | partner-sim/app/migrate.py:53-60 | If the files can be numbered at all, sorting them is that numbering |
| Migrations.BuildsAgree | partner-sim/app/migrate.py:63-91 | Builds that know more or fewer files mean the same schema by a version |
| Migrations.StatementsRunInOrder | partner-sim/app/migrate.py:94-115 | The statements of a script run one after the other, and the first error ends it |
| LogArchive.LogArchiveService.Archive | backend/src/services/log-archive-service.ts:62-99 | A run stores exactly the objects of the days before the put that failed; on success all of them, with the batch size as record count |
| LogArchive.RetriesLeaveNoTrace | backend/src/services/log-archive-service.ts:54-58 | After any number of runs that failed part-way, one that succeeds leaves the archive of a single run |
| LogArchive.EveryEventIsFiledOnce | backend/src/services/log-archive-service.ts:75-83 | The events of all days together are the events of the batch, each exactly once |
| LogArchive.EveryEventIsArchived | backend/src/services/log-archive-service.ts:85-96 | After a complete run every event is in the object of its own UTC day, and no object of the batch overwrites another |
| LogArchive.OneDayTextPerDay | backend/src/services/log-archive-service.ts:79-79 | Two events are filed under one day exactly when they happened on one UTC day |
| LogArchive.KeysTellTheDate | backend/src/services/log-archive-service.ts:85-96 | The folder of an event is the year, the month and the day of its own UTC date |
| LogArchive.EventsKeepTheirOrder | backend/src/services/log-archive-service.ts:75-83 | The events of a day are in the order of the batch |
| LogArchive.DaysAppearInOrder | backend/src/services/log-archive-service.ts:75-83 | The days are in the order of their first events |
| LogArchive.LogArchiveService.Split | backend/src/services/log-archive-service.ts:75-83 | The loop over the map gives each day once, in order of appearance, with its events in their original order |
| RequestsStore.MergeById | frontend/src/entities/request/model/RequestsStore.ts:22-29 | Strictly descending by id without repeats; for each id the last incoming request, or else the known one |
| RequestsStore.MergesAreUnique | frontend/src/entities/request/model/RequestsStore.ts:20-29 | There is only one such list |
| RequestsStore.DescendingAlong | frontend/src/entities/request/model/RequestsStore.ts:20-29 | Over every interleaving of answers, the cached requests are strictly descending by id without repeats |
| RequestsStore.KnownRequestsStay | frontend/src/entities/request/model/RequestsStore.ts:65-163 | Over every interleaving of answers, no known id ever disappears |
| RequestsStore.TheLastAnswerWins | frontend/src/entities/request/model/RequestsStore.ts:65-190 | Over every interleaving, the cache holds for each id exactly the request merged last, and no id that no answer brought |
| RequestsStore.ReadyExactlyWithoutMixups | frontend/src/entities/request/model/RequestsStore.ts:126-152 | A `ready` detail stays a cached request exactly unless a detail answer is about another id than asked and the asked one is unknown |
| RequestsStore.ReadyAlongExactlyWithoutMixups | frontend/src/entities/request/model/RequestsStore.ts:107-152 | Over every interleaving: in all states up to any point a `ready` detail names a cached request exactly when no answer before that point was about another id while the asked one was unknown |
| RequestsStore.ReadyDetailsAreCached | frontend/src/entities/request/model/RequestsStore.ts:107-152 | If the API answers for the id it was asked, a `ready` detail always names a cached request |
| RequestsStore.AMixedUpAnswerShowsNothing | frontend/src/entities/request/model/RequestsStore.ts:128-134 | Otherwise, for any two ids: a run from the first state in which the page is ready to show a request it does not have |
| RequestsStore.RequestsStore.ListAnswered | frontend/src/entities/request/model/RequestsStore.ts:69-104 | The answer merged, the list ready, the detail untouched |
| RequestsStore.RequestsStore.ListCallFailed | frontend/src/entities/request/model/RequestsStore.ts:79-104 | A failed background refresh takes nothing off the screen |
| RequestsStore.RequestsStore.BeginDetail | frontend/src/entities/request/model/RequestsStore.ts:107-117 | A known request is shown at once and not asked for |
| RequestsStore.RequestsStore.DetailAnswered | frontend/src/entities/request/model/RequestsStore.ts:128-134 | Merged always; shown only if the page still shows that id |
| RequestsStore.RequestsStore.DetailCallFailed | frontend/src/entities/request/model/RequestsStore.ts:135-152 | A failure shows only when there is nothing else to show for that id |

## Left out

- Several owners: the table is keyed by the request id alone, because the source takes a ULID to be unique in the table; the owner's part of the key is not modelled.
- The webhook's look-up of the owner by an eventually consistent index, which may answer 404 for a moment.
- `DecisionRegister.Write` and `DecisionService.State`: the reason and `receivedAt` of a decision, which no rule looks at.
- WebhookService.WebhookService.Receive: media type matching and XML parsing come with the call as judgements, and the HMAC is any function.
- Whether a document is schema-valid is one predicate that both sides share; libxml2, lxml and xmldom are not modelled. XmlReader reads the submissions only: no comments, CDATA, DOCTYPE, processing instructions or mixed content.
- NoLoss.NoRequestIsLost: a malformed stream record, which the enqueuer skips and lets Lambda pass, has no step in `Protocol`. `StreamImages.EveryWrittenImageIsReadable` shows that no write of the table makes one; an item written by other means could be lost that way.
- The queue body is a value and not JSON, and the reply is a value and not XML text (replies.py builds it with lxml).
- Recipient.ReaderUnderstandsTheRecipient: the 415 and 413 of api.py, which the reader takes for refusals, are no `Move`. Our own documents meet neither as long as the client sends its one fixed content type and the recipient's configurable body limit (65,536 bytes by default) is not below the sender's own limit; with a lower limit a request could be `rejected` without a row at the recipient.
- Time in the queue: the five minutes of deduplication are a free choice between dropping and storing a duplicate, and retention, stream expiry (ten tries, one hour) and the operator's redrive of the dead-letter queue are left out.
- The operator's reset of the simulator, which is made to forget answered ids.
- Other senders of valid submissions: in the step system a stranger may send the recipient anything, with any id, except a document that passes the schema.
- DeliveryService.Worker.Process: forgetting the API key after 401 or 403 (its effect on the cache is ApiKeyProvider's `Invalidate`), the time, the document and the problems in the exchange record, spans, log lines and request events.
- EventTime.EveryOffsetReadsBack: `Date.parse` is modelled as ECMA-262 writes it, with digits of a fraction after the third dropped and a day past the end of its month running on into the next one, where the standard leaves room; event.xsd refuses such days before.
- Migrations.FindMigrations: the digits of a file name are ASCII digits, where Python's `\d` takes other decimal digits too; two processes that migrate one file at the same time.
- LogArchive.LogArchiveService.Archive: gzip, base64 and JSON of the payload, which is unreadable or an envelope; two batches with the same hash of their lines on one day.
- RequestsStore: error texts, MobX, and `hasPendingItems`. The flag of a retry is cleared by the first of two overlapping retries of one id, which the page's disabled button prevents.
- Tracing: spans and the guard of their attributes.
- Listing, finding and reading requests through the API, request validation, sign-in, the HTML pages, Lambda and container wiring, metrics and the infrastructure: easy members that touch no protocol state.
