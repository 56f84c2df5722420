# MSEmail delivery pipeline in Dafny

This project models the e-mail delivery pipeline of MSEmail and proves properties of that model.

A send request names a template, a list of recipient ids, additional template variables and an optional PDF attachment. `SendEmailHandler` turns it into one `EmailLog` row (a delivery log) and one `EmailQueueMessage` per recipient found. Messages are published to a RabbitMQ queue. The background `Worker` consumes each message, loads its log and marks it `Processing`, counts the attempt, hands the mail to the transport, and records the outcome through the `EmailLog` entity methods and `HandleEmailFailure`. `ReprocessEmailHandler` resets one log to `Pending` and queues it again.

Around the pipeline the model covers:
- the three repositories, as tables with their filter and sort queries;
- the template and recipient command handlers, which keep names and e-mail addresses unique;
- the e-mail query handlers, including the statistics;
- the consumer's settlement decision in `RabbitMqService`: acknowledge, reject and requeue, or reject and drop.

How the model is built:
- **Tables.** Each table is a `map` from id to row. A GUID is a natural number, and each repository hands out fresh ids from a counter. A LINQ query enumerates the rows in ascending key order, filters them with `Where` and sorts them stably with `OrderBy`.
- **Objects that change in place.** The `EmailLog` entity and the repositories are classes whose methods assign their fields. Each method is proved against a function on rows, such as `WithSent` or `ProcessSpec`. The broker queue is a `seq` of deliveries.
- **Collaborators.**
  - The mail transport and `FileExistsAsync` are boolean oracles.
  - The clock is a parameter `now`.
  - Store and broker calls that may throw are named by parameters: the worker's `WorkerFault` set, the send handler's `publishFailsAt` and the reprocess handler's `publishFails`.
  - A delayed retry publish (`Task.Run` + `Task.Delay`) is a `ScheduledRetry` entry in the worker's list.
- **Dictionaries.** A `Dictionary<string, string>` is its entries in enumeration order. Overwriting a key keeps its slot, and a new key is appended.

The code as written behaves as follows, and the model follows it:
- **`Retrying` is unreachable through the worker.** `ShouldRetry` holds only for a `Failed` log, but the worker has already marked the log `Processing` before any failure handling. A refused mail below the attempt limit therefore leaves the log `Processing` with its error message unchanged. At the limit the log becomes `Failed`.
- **Messages are Portuguese.** The error notes are "Tentativa n/max: …" and "Falha definitiva após n tentativas: …".
- **Nothing guards a delivered or failed log.** `MarkAsSent` re-stamps `SentAt` every time. A second delivery of a message counts another attempt and sends again.
- **A throwing save after `MarkAsSent` can undo the success.** The catch block passes the tracked log, now `Sent`, to `HandleEmailFailure`. At the attempt limit, a mail that went out is recorded as `Failed`.
- **The header is never set.** Publishing never sets `x-retry-count`, so a message of this service that keeps making the handler throw is requeued forever while `MaxRetryAttempts >= 1`. In this pipeline that never happens, because the worker swallows every exception.

## Model

| member | source | states |
|---|---|---|
| EmailLogEntity.NewLogRow | MSEmail.Domain/Entities/EmailLog.cs:38-50 | a new log is `Pending` with 0 attempts, `MaxAttempts` 3, no `SentAt`, no error message and the empty id; it carries the given recipient, template, subject and body; nothing is waiting for a retry |
| EmailLogEntity.EmailLog.constructor | MSEmail.Domain/Entities/EmailLog.cs:38-50 | the object's columns are exactly those of `NewLogRow` |
| EmailLogEntity.DefinitiveFailureEffect | MSEmail.Domain/Entities/EmailLog.cs:64-72 | at or past the limit the log becomes `Failed` with the given message and no retry pending; below the limit nothing changes |
| EmailLogEntity.EmailLog.MarkAsDefinitiveFailure | MSEmail.Domain/Entities/EmailLog.cs:64-72 | the object's new columns are `WithDefinitiveFailure` of its old ones |
| EmailLogEntity.IncrementEffect | MSEmail.Domain/Entities/EmailLog.cs:77-81 | the counter rises by exactly one; status, ids, subject, body and `MaxAttempts` are unchanged |
| EmailLogEntity.EmailLog.IncrementAttempt | MSEmail.Domain/Entities/EmailLog.cs:77-81 | the object's new columns are `WithAttemptIncremented` of its old ones |
| EmailLogEntity.SentEffect | MSEmail.Domain/Entities/EmailLog.cs:86-91 | `Sent` with `SentAt` set; the error message and counter are kept; a second call keeps `Sent` but re-stamps `SentAt` |
| EmailLogEntity.EmailLog.MarkAsSent | MSEmail.Domain/Entities/EmailLog.cs:86-91 | the object's new columns are `WithSent` of its old ones |
| EmailLogEntity.StepsPreserve | MSEmail.Domain/Entities/EmailLog.cs:56-91 | over any sequence of entity method calls the ids, subject, body and `MaxAttempts` never change, the counter grows by exactly the number of increments, and a log with nothing to retry keeps nothing to retry |
| EmailTemplateEntity.ProcessTemplate | MSEmail.Domain/Entities/EmailTemplate.cs:35-48 | the loop's subject and body are the template's texts with every variable's `{key}` replaced in enumeration order; the template value itself is untouched |
| EmailTemplateEntity.ExpandAppend | MSEmail.Domain/Entities/EmailTemplate.cs:37-47 | with no variables a text comes back as it is; expanding with the variables `a + b` is expanding with `a` and then the result with `b`, so each variable acts on the text the earlier ones left |
| EmailTemplateEntity.ExpandNoPlaceholders | MSEmail.Domain/Entities/EmailTemplate.cs:42-44 | when no variable's placeholder occurs anywhere in the text, the text is returned unchanged |
| EmailTemplateEntity.ExpandSinglePlaceholder | MSEmail.Domain/Entities/EmailTemplate.cs:40-45 | for the variable at any position `n` whose key holds no `{`: if the text the earlier variables left is `parts` joined by `{key}`, with no `{key}` inside a part, then every one of those `{key}` becomes the value and nothing else changes before the later variables run |
| EmailTemplateEntity.ExpandFillsPlaceholders | MSEmail.Domain/Entities/EmailTemplate.cs:37-47 | for a template of literal text and `{key}` placeholders, with no braces in the text, keys or values: every placeholder whose key has a variable becomes that variable's value and every other placeholder, such as an unmatched `{foo}`, survives as written |
| EmailTemplateEntity.HelloAna | MSEmail.Domain/Entities/EmailTemplate.cs:42-43 | `Hello {usuario.nome} {x}` with only `usuario.nome` ↦ `Ana` becomes `Hello Ana {x}` |
| EmailTemplateEntity.GreetingForRecipient | MSEmail.Domain/Entities/EmailTemplate.cs:37-47 | `Olá {usuario.nome}, CDC {usuario.cdc}` expanded with a recipient's three template variables (Recipient.cs:36-44) becomes `Olá <name>, CDC <cdc>`, for any name, address and CDC without braces |
| RecipientEntity.TemplateVariablesLookup | MSEmail.Domain/Entities/Recipient.cs:36-44 | exactly the keys `usuario.nome`, `usuario.email` and `usuario.cdc`, once each and in that order, mapped to the name, e-mail address and CDC; every other key is absent |
| TemplateVariables.Lookup | MSEmail.Application/Handlers/Emails/EmailCommandHandlers.cs:85-89 | a key has a value exactly when some entry holds it, and the value found is one of that key's entries |
| TemplateVariables.AssignLookup | MSEmail.Application/Handlers/Emails/EmailCommandHandlers.cs:88 | after `variables[k] = v`, `k` reads `v` and every other key reads as before |
| TemplateVariables.AssignSlots | MSEmail.Application/Handlers/Emails/EmailCommandHandlers.cs:88 | the assignment grows the dictionary only for a new key, and every old key keeps its slot |
| TemplateVariables.AssignKeepsUnique | MSEmail.Application/Handlers/Emails/EmailCommandHandlers.cs:88 | the assignment keeps the keys unique |
| TemplateVariables.MergeLookup | MSEmail.Application/Handlers/Emails/EmailCommandHandlers.cs:85-89 | after the merge a key of the additional variables reads the additional value, and any other key keeps the recipient's value |
| TemplateVariables.MergeKeepsSlots | MSEmail.Application/Handlers/Emails/EmailCommandHandlers.cs:85-89 | the merge keeps every recipient key in its slot and keeps keys unique |
| EmailCommands.MergeVariables | MSEmail.Application/Handlers/Emails/EmailCommandHandlers.cs:85-89 | the loop copying the additional variables computes `Merge` of the two dictionaries |
| EmailCommands.HandleSendEmail | MSEmail.Application/Handlers/Emails/EmailCommandHandlers.cs:40-143 | the response, the log table, the id supply and the queue are exactly those of `SendSpec` on the old state |
| EmailCommands.SendAccepted | MSEmail.Application/Handlers/Emails/EmailCommandHandlers.cs:75-132 | the store and queue end in the loop's final state, and the response is the one that state gives |
| EmailCommands.SendToRecipients | MSEmail.Application/Handlers/Emails/EmailCommandHandlers.cs:75-125 | the loop, stopped at the first publish that throws, ends in `Dispatch` of the start state |
| EmailCommands.SendToRecipient | MSEmail.Application/Handlers/Emails/EmailCommandHandlers.cs:77-124 | one turn of the loop ends in `DispatchOne` of the state before it |
| EmailCommands.CreateAndPublish | MSEmail.Application/Handlers/Emails/EmailCommandHandlers.cs:92-122 | one new row under the next id, built for the recipient; the id is recorded; one delivery is appended unless this publish throws, which aborts the loop |
| EmailCommands.SendSpecDispatched | MSEmail.Application/Handlers/Emails/EmailCommandHandlers.cs:47-132 | once the template and the file are found, the outcome is the response the loop's final state gives |
| EmailCommands.DispatchStep | MSEmail.Application/Handlers/Emails/EmailCommandHandlers.cs:75-125 | the loop from position `i` is one turn, then the loop from `i + 1` |
| EmailCommands.DispatchOneCases | MSEmail.Application/Handlers/Emails/EmailCommandHandlers.cs:77-124 | an unknown recipient is skipped; a known one gets a row and an id, and either its publish throws (no delivery, loop aborted) or one delivery is appended |
| EmailCommandProperties.Found | MSEmail.Application/Handlers/Emails/EmailCommandHandlers.cs:75-82 | the recipients found are no more than those requested, and each is in the table |
| EmailCommandProperties.FoundOccurrences | MSEmail.Application/Handlers/Emails/EmailCommandHandlers.cs:75-82 | each id requested and found occurs in `Found` exactly as often as in the request; duplicates are not collapsed and unknown ids are dropped |
| EmailCommandProperties.CreatedCount | MSEmail.Application/Handlers/Emails/EmailCommandHandlers.cs:95-122 | a batch creates at most one log per recipient found, and at least one when a publish throws |
| EmailCommandProperties.QueuedCount | MSEmail.Application/Handlers/Emails/EmailCommandHandlers.cs:104-122 | a batch queues at most one delivery per recipient found |
| EmailCommandProperties.DispatchCounts | MSEmail.Application/Handlers/Emails/EmailCommandHandlers.cs:75-141 | the loop aborts exactly when a publish of this batch throws; the ids it collects are the next `CreatedCount` fresh ids, in order |
| EmailCommandProperties.DispatchLogKeys | MSEmail.Application/Handlers/Emails/EmailCommandHandlers.cs:95-105 | the loop adds rows exactly under the next `CreatedCount` ids |
| EmailCommandProperties.DispatchKeepsRows | MSEmail.Application/Handlers/Emails/EmailCommandHandlers.cs:95-105 | every row stored before the loop, other than those under the new ids, is left as it was |
| EmailCommandProperties.DispatchNewRow | MSEmail.Application/Handlers/Emails/EmailCommandHandlers.cs:92-105 | the row under the `j`-th new id is the log built for the `j`-th recipient found |
| EmailCommandProperties.DispatchQueuePrefix | MSEmail.Application/Handlers/Emails/EmailCommandHandlers.cs:108-122 | the loop appends `QueuedCount` deliveries behind the queue's old contents |
| EmailCommandProperties.DispatchNewDelivery | MSEmail.Application/Handlers/Emails/EmailCommandHandlers.cs:108-122 | the `j`-th delivery appended is the one for the `j`-th recipient found and the `j`-th new id |
| EmailCommandProperties.CreatedRowFields | MSEmail.Application/Handlers/Emails/EmailCommandHandlers.cs:92-102 | a created log has its new id, the recipient and template ids, `Pending`, 0 attempts, `MaxAttempts` 3 and no error or send time; its subject and body are the template expanded with that recipient's variables |
| EmailCommandProperties.QueuedDeliveryMatchesLog | MSEmail.Application/Handlers/Emails/EmailCommandHandlers.cs:108-122 | the published message carries its log's id, recipient, template, subject and body, the recipient's address, the requested PDF path and attempt 0, and has retry count 0 |
| EmailCommandProperties.VariablesOverride | MSEmail.Application/Handlers/Emails/EmailCommandHandlers.cs:85-89 | a key of the additional variables takes the request's value, and any other key keeps the recipient's own value |
| EmailCommandProperties.SendRejects | MSEmail.Application/Handlers/Emails/EmailCommandHandlers.cs:47-70 | an unknown template, or a requested PDF that does not exist, gives `Success = false` with its message and no ids; nothing is stored and nothing is queued |
| EmailCommandProperties.SendAcceptedResponse | MSEmail.Application/Handlers/Emails/EmailCommandHandlers.cs:75-141 | success holds exactly when no publish of this batch throws; on success the ids are one fresh id per recipient occurrence found, in order, and the message counts them; otherwise the response is the internal error with no ids, while the logs created so far stay |
| EmailCommandProperties.SendAcceptedState | MSEmail.Application/Handlers/Emails/EmailCommandHandlers.cs:75-125 | an accepted request leaves the store and queue in the loop's final state |
| EmailCommandProperties.SendAcceptedLogs | MSEmail.Application/Handlers/Emails/EmailCommandHandlers.cs:92-105 | after an accepted request the table has exactly the old keys plus the new ids; the new rows are the logs built for the recipients found, in order; the other rows are untouched |
| EmailCommandProperties.SendAcceptedQueue | MSEmail.Application/Handlers/Emails/EmailCommandHandlers.cs:104-122 | after an accepted request the queue is its old contents, then one delivery per new log in order, except for the log whose publish threw |
| EmailCommands.HandleReprocessEmail | MSEmail.Application/Handlers/Emails/EmailCommandHandlers.cs:165-201 | the result, the log table and the queue are exactly those of `ReprocessSpec` on the old state |
| EmailCommands.ResetLog | MSEmail.Application/Handlers/Emails/EmailCommandHandlers.cs:177-181 | the log becomes `ResetRow` of itself and is saved over its row |
| EmailCommands.Requeue | MSEmail.Application/Handlers/Emails/EmailCommandHandlers.cs:184-196 | a missing recipient or a throwing publish queues nothing and throws; otherwise one delivery with the stored texts and counter is appended |
| EmailCommandProperties.ReprocessEffect | MSEmail.Application/Handlers/Emails/EmailCommandHandlers.cs:169-200 | an unknown id returns false and changes nothing; a known log is saved `Pending` without an error message, its counter, send time and identity kept; when its recipient is found and the publish succeeds, exactly one delivery is queued for it with the stored subject, body and counter and no PDF path |
| DeliveryWorker.Worker.ProcessEmailMessage | MSEmail.Worker/Worker.cs:60-139 | the table and the retries scheduled are those of `ProcessSpec` (the try block, then the catch block if it threw); no id is consumed |
| DeliveryWorker.Worker.TrySend | MSEmail.Worker/Worker.cs:70-121 | the try block's table, retries, mail and thrown flag are those of `TrySpec` |
| DeliveryWorker.Worker.Deliver | MSEmail.Worker/Worker.cs:86-120 | after the log is saved as processing, the transport call and what follows are those of `DeliverSpec` |
| DeliveryWorker.Worker.Recover | MSEmail.Worker/Worker.cs:122-138 | the catch block follows `CatchSpec`: the log read again, which is the tracked object when there is one, goes through the failure handling, and an exception from the read or the save is swallowed |
| DeliveryWorker.Worker.HandleEmailFailure | MSEmail.Worker/Worker.cs:147-189 | the log object, the table and the retries scheduled are those of `HandleFailure` on the old log |
| DeliveryWorkerProperties.ProcessingRowEffect | MSEmail.Worker/Worker.cs:81-83 | before the transport call the log is `Processing` with one more attempt, and nothing else changes |
| DeliveryWorkerProperties.HandleFailureRetries | MSEmail.Worker/Worker.cs:149-179 | a log that should be retried becomes `Retrying` with the "Tentativa n/max" note; once saved with its recipient present, exactly one publish is scheduled after the delay, carrying the same id, subject, body and counter and no PDF path |
| DeliveryWorkerProperties.HandleFailureSettles | MSEmail.Worker/Worker.cs:180-188 | any other log schedules nothing; at the limit it becomes `Failed` with the "Falha definitiva após n tentativas" note, and below the limit only the update stamp changes |
| DeliveryWorkerProperties.AttachmentRule | MSEmail.Worker/Worker.cs:86-98 | the attachment passed is the message's path exactly when that path is non-empty and the file exists; otherwise it is null |
| DeliveryWorkerProperties.NotFoundIsNoOp | MSEmail.Worker/Worker.cs:73-78 | a message whose log is absent changes nothing, sends nothing and schedules nothing |
| DeliveryWorkerProperties.SuccessPath | MSEmail.Worker/Worker.cs:73-113 | with the transport accepting and no store fault, the log is `Sent` with `SentAt` set, one more attempt and its error message kept, and the mail goes to the message's recipient; this holds for any prior status |
| DeliveryWorkerProperties.FailurePath | MSEmail.Worker/Worker.cs:116-120 | with the transport refusing and no store fault, no retry is scheduled; at the limit the log becomes `Failed` with "Falha definitiva após n tentativas: Falha no envio do e-mail", and below it the log stays `Processing` with its error message unchanged |
| DeliveryWorkerProperties.SentSaveFailureRecovery | MSEmail.Worker/Worker.cs:108-138 | when the save after `MarkAsSent` throws, the tracked `Sent` log is saved after all below the limit; at the limit it is saved as `Failed` with the exception's message |
| DeliveryWorkerProperties.HandleFailureKeeps | MSEmail.Worker/Worker.cs:147-189 | the failure handling keeps the log's identity fields and counter, and a log nobody will retry stays so and schedules nothing |
| DeliveryWorkerProperties.DeliverKeeps | MSEmail.Worker/Worker.cs:101-120 | the transport call and what follows change only the saved log, keeping its identity fields and counter |
| DeliveryWorkerProperties.TryKeeps | MSEmail.Worker/Worker.cs:70-121 | the try block changes only the message's log, by at most one attempt |
| DeliveryWorkerProperties.CatchKeeps | MSEmail.Worker/Worker.cs:122-138 | the catch block changes only the message's log, into the failure handling of the log it reads again |
| DeliveryWorkerProperties.ProcessKeepsIdentity | MSEmail.Worker/Worker.cs:60-139 | whatever throws, no log is added or removed, only the message's log changes, it keeps its identity fields, and its counter rises by at most one |
| DeliveryWorkerProperties.ProcessKeepsQuiet | MSEmail.Worker/Worker.cs:60-189 | over a store where no log is failed with attempts left or `Retrying`, handling any message, whatever throws, keeps it so and schedules no retry |
| EmailLogStore.GetByIdFinds | MSEmail.Infrastructure/Repositories/EmailLogRepository.cs:20-26 | in a table whose rows sit under their own ids, lookup by id finds the row under that id, or null when there is none |
| EmailLogStore.GetByStatus | MSEmail.Infrastructure/Repositories/EmailLogRepository.cs:28-36 | the result is sorted by `CreatedAt` ascending and is a permutation of the rows with that status |
| EmailLogStore.GetByStatusMembers | MSEmail.Infrastructure/Repositories/EmailLogRepository.cs:28-36 | a row is returned exactly when it is stored and has that status |
| EmailLogStore.GetPendingEmails | MSEmail.Infrastructure/Repositories/EmailLogRepository.cs:38-46 | the pending query equals the status query for `Pending` |
| EmailLogStore.GetFailedEmailsForRetry | MSEmail.Infrastructure/Repositories/EmailLogRepository.cs:48-56 | the result is sorted by `UpdatedAt` ascending and is a permutation of the failed rows with attempts left |
| EmailLogStore.GetFailedEmailsForRetryMembers | MSEmail.Infrastructure/Repositories/EmailLogRepository.cs:48-56 | a row is returned exactly when it is stored and `ShouldRetry` holds for it |
| EmailLogStore.GetByRecipientId | MSEmail.Infrastructure/Repositories/EmailLogRepository.cs:58-66 | the result is sorted by `CreatedAt` descending and is a permutation of that recipient's rows |
| EmailLogStore.GetByRecipientIdMembers | MSEmail.Infrastructure/Repositories/EmailLogRepository.cs:58-66 | a row is returned exactly when it is stored and belongs to that recipient |
| EmailLogStore.EmailLogRepository.Find | MSEmail.Infrastructure/Repositories/EmailLogRepository.cs:20-26 | null exactly when the id is absent; otherwise a fresh object holding the stored row |
| EmailLogStore.EmailLogRepository.Create | MSEmail.Infrastructure/Repositories/EmailLogRepository.cs:68-78 | the object gets a fresh id and both timestamps, and exactly one new row is added under that id while the others are unchanged |
| EmailLogStore.EmailLogRepository.Update | MSEmail.Infrastructure/Repositories/EmailLogRepository.cs:80-88 | `UpdatedAt` is bumped and only that row is replaced; a throwing or missing save leaves the table as it was |
| EmailLogStore.EmailLogRepository.Delete | MSEmail.Infrastructure/Repositories/EmailLogRepository.cs:90-98 | the row is removed if present, and an absent id is a no-op |
| EmailQueries.LogsByStatusExact | MSEmail.Application/Handlers/Emails/EmailQueryHandlers.cs:30-36 | the logs by status are exactly the stored logs with that status, one per log, oldest first |
| EmailQueries.LogByIdFinds | MSEmail.Application/Handlers/Emails/EmailQueryHandlers.cs:58-70 | the result is null exactly when the id is absent, and otherwise the stored log |
| EmailQueries.LogsByRecipientExact | MSEmail.Application/Handlers/Emails/EmailQueryHandlers.cs:136-142 | the logs by recipient are exactly that recipient's stored logs, newest first |
| EmailQueries.StatisticsCounts | MSEmail.Application/Handlers/Emails/EmailQueryHandlers.cs:89-114 | each count is the number of stored logs with that status; the total is their sum and equals the number of stored logs |
| EmailQueries.FilterStatusCount | MSEmail.Application/Handlers/Emails/EmailQueryHandlers.cs:93-103 | `Where(status == s)` keeps exactly as many rows as the enumeration has with that status |
| EmailQueries.KeysStatusCount | MSEmail.Application/Handlers/Emails/EmailQueryHandlers.cs:93-103 | enumerating the rows under distinct keys counts one row per key whose row has the status |
| EmailQueries.StatusesPartition | MSEmail.Application/Handlers/Emails/EmailQueryHandlers.cs:112 | the five status counts of any sequence of logs add up to its length |
| EmailQueries.StatusQueryCount | MSEmail.Application/Handlers/Emails/EmailQueryHandlers.cs:93-103 | the status query returns as many logs as the enumeration has with that status |
| EmailQueries.EnumerationStatusCount | MSEmail.Application/Handlers/Emails/EmailQueryHandlers.cs:93-103 | the enumeration has one row with the status per stored log with that status |
| EmailQueries.StatusCount | MSEmail.Application/Handlers/Emails/EmailQueryHandlers.cs:93-103 | the status query returns one log per stored log with that status |
| TemplateStore.GetByIdFinds | MSEmail.Infrastructure/Repositories/EmailTemplateRepository.cs:20-24 | lookup by id finds the template under that id, or null |
| TemplateStore.GetByNameFinds | MSEmail.Infrastructure/Repositories/EmailTemplateRepository.cs:26-30 | lookup by name finds a stored template with that name, and finds none exactly when no template has it |
| TemplateStore.GetAllActive | MSEmail.Infrastructure/Repositories/EmailTemplateRepository.cs:32-38 | the result is sorted by name and is a permutation of the active templates |
| TemplateStore.GetAllActiveMembers | MSEmail.Infrastructure/Repositories/EmailTemplateRepository.cs:32-38 | a template is listed exactly when it is stored and active |
| TemplateStore.GetAll | MSEmail.Infrastructure/Repositories/EmailTemplateRepository.cs:40-45 | the result is sorted by name and is a permutation of all the templates, one per row |
| TemplateStore.GetAllMembers | MSEmail.Infrastructure/Repositories/EmailTemplateRepository.cs:40-45 | a template is listed exactly when it is stored |
| TemplateStore.EmailTemplateRepository.Find | MSEmail.Infrastructure/Repositories/EmailTemplateRepository.cs:20-24 | the template stored under the id, or none |
| TemplateStore.EmailTemplateRepository.Create | MSEmail.Infrastructure/Repositories/EmailTemplateRepository.cs:47-57 | a fresh id and both timestamps are assigned, and exactly one row is added |
| TemplateStore.EmailTemplateRepository.Update | MSEmail.Infrastructure/Repositories/EmailTemplateRepository.cs:59-67 | `UpdatedAt` is bumped and only that row is replaced; a template that is not stored is refused |
| TemplateStore.EmailTemplateRepository.Delete | MSEmail.Infrastructure/Repositories/EmailTemplateRepository.cs:69-77 | the row is removed if present, and an absent id is a no-op |
| RecipientStore.GetByIdFinds | MSEmail.Infrastructure/Repositories/RecipientRepository.cs:20-24 | lookup by id finds the recipient under that id, or null |
| RecipientStore.GetByEmailFinds | MSEmail.Infrastructure/Repositories/RecipientRepository.cs:26-30 | lookup by address finds a stored recipient with that address, and finds none exactly when no recipient has it |
| RecipientStore.GetActiveRecipients | MSEmail.Infrastructure/Repositories/RecipientRepository.cs:32-38 | the result is sorted by name and is a permutation of the active recipients |
| RecipientStore.GetActiveRecipientsMembers | MSEmail.Infrastructure/Repositories/RecipientRepository.cs:32-38 | a recipient is listed exactly when it is stored and active |
| RecipientStore.GetAll | MSEmail.Infrastructure/Repositories/RecipientRepository.cs:40-45 | the result is sorted by name and is a permutation of all the recipients, one per row |
| RecipientStore.GetAllMembers | MSEmail.Infrastructure/Repositories/RecipientRepository.cs:40-45 | a recipient is listed exactly when it is stored |
| RecipientStore.FindIn | MSEmail.Infrastructure/Repositories/RecipientRepository.cs:20-24 | the recipient stored under the id, or none |
| RecipientStore.RecipientRepository.Find | MSEmail.Infrastructure/Repositories/RecipientRepository.cs:20-24 | the recipient stored under the id, or none |
| RecipientStore.RecipientRepository.Create | MSEmail.Infrastructure/Repositories/RecipientRepository.cs:47-57 | a fresh id and both timestamps are assigned, and exactly one row is added |
| RecipientStore.RecipientRepository.Update | MSEmail.Infrastructure/Repositories/RecipientRepository.cs:59-67 | `UpdatedAt` is bumped and only that row is replaced; a recipient that is not stored is refused |
| RecipientStore.RecipientRepository.Delete | MSEmail.Infrastructure/Repositories/RecipientRepository.cs:69-77 | the row is removed if present, and an absent id is a no-op |
| TemplateCommands.CreateEmailTemplate | MSEmail.Application/Handlers/EmailTemplates/EmailTemplateCommandHandlers.cs:30-47 | a name in use fails with `InvalidOperation` and changes nothing; otherwise exactly one active template is added under a fresh id; unique names stay unique |
| TemplateCommands.AddKeepsUnique | MSEmail.Application/Handlers/EmailTemplates/EmailTemplateCommandHandlers.cs:35-42 | adding a template whose name nobody holds keeps names unique |
| TemplateCommands.UpdateEmailTemplate | MSEmail.Application/Handlers/EmailTemplates/EmailTemplateCommandHandlers.cs:69-95 | an unknown id fails with `NotFoundArgument` and changes nothing; a changed name held by another template fails with `InvalidOperation` and changes nothing; otherwise the row becomes the request mapped onto the stored template, with `CreatedAt` kept; unique names stay unique |
| TemplateCommands.ReplaceKeepsUnique | MSEmail.Application/Handlers/EmailTemplates/EmailTemplateCommandHandlers.cs:80-90 | replacing a template by one whose name is its own, or held by nobody else, keeps names unique |
| TemplateCommands.DeleteEmailTemplate | MSEmail.Application/Handlers/EmailTemplates/EmailTemplateCommandHandlers.cs:114-130 | returns true exactly when the id was stored; the template is removed, and nothing changes otherwise |
| RecipientCommands.EmailBlockedMeans | MSEmail.Application/Handlers/Recipients/RecipientCommandHandlers.cs:80-84 | with unique addresses, the update's check (the recipient found by the address is not the one updated) holds exactly when another recipient holds the address |
| RecipientCommands.CreateRecipient | MSEmail.Application/Handlers/Recipients/RecipientCommandHandlers.cs:30-47 | an address in use fails with `InvalidOperation` and changes nothing; otherwise exactly one recipient is added under a fresh id; unique addresses stay unique |
| RecipientCommands.AddKeepsUnique | MSEmail.Application/Handlers/Recipients/RecipientCommandHandlers.cs:35-42 | adding a recipient whose address nobody holds keeps addresses unique |
| RecipientCommands.UpdateRecipient | MSEmail.Application/Handlers/Recipients/RecipientCommandHandlers.cs:69-92 | an unknown id fails with `NotFoundArgument`; an address held by another recipient fails with `InvalidOperation`; either failure changes nothing; keeping one's own address is allowed; otherwise the row becomes the request copied onto the stored recipient; unique addresses stay unique |
| RecipientCommands.ReplaceKeepsUnique | MSEmail.Application/Handlers/Recipients/RecipientCommandHandlers.cs:80-87 | replacing a recipient by one whose address no other recipient holds keeps addresses unique |
| RecipientCommands.DeleteRecipient | MSEmail.Application/Handlers/Recipients/RecipientCommandHandlers.cs:111-127 | returns true exactly when the id was stored; the recipient is removed, and nothing changes otherwise |
| MessageQueue.RetryCountDefaults | MSEmail.Infrastructure/Services/RabbitMqService.cs:152-166 | the retry count is 0 when the headers are missing, the key is absent, the value is not bytes, or the text does not parse |
| MessageQueue.RetryCountRoundTrip | MSEmail.Infrastructure/Services/RabbitMqService.cs:152-166 | a header holding the decimal text of an Int32 reads back as that number |
| Text.ParseInt32 | MSEmail.Infrastructure/Services/RabbitMqService.cs:159 | `int.TryParse` succeeds only with a value in the Int32 range |
| Text.ParseFormatRoundTrip | MSEmail.Infrastructure/Services/RabbitMqService.cs:159 | formatting an Int32 and parsing it back gives the same number |
| MessageQueue.DecideAck | MSEmail.Infrastructure/Services/RabbitMqService.cs:96-134 | a delivery is acknowledged exactly when it deserialises and the handler completes; a null body is dropped without the handler; it is requeued exactly when it fails (malformed, or the handler threw) with the retry count below `MaxRetryAttempts` |
| MessageQueue.PublishedFailuresRequeueForever | MSEmail.Infrastructure/Services/RabbitMqService.cs:66-125 | a delivery published by this service has retry count 0, so when it fails with `MaxRetryAttempts >= 1` it is requeued and the queue is left unchanged |
| MessageQueue.RabbitMqService.PublishEmail | MSEmail.Infrastructure/Services/RabbitMqService.cs:59-88 | appends exactly one persistent-as-configured delivery carrying the message, or reports the failure with the queue unchanged |
| MessageQueue.RabbitMqService.Receive | MSEmail.Infrastructure/Services/RabbitMqService.cs:96-134 | the handler sees the message only when the body deserialises; the settlement is `Decide`; an acknowledged or dropped delivery leaves the queue and a requeued one stays at its head |
| DeliveryPipeline.ConsumeNext | MSEmail.Infrastructure/Services/RabbitMqService.cs:96-134 | with `ProcessEmailMessage` as the handler, every delivery that deserialises is acknowledged and leaves the queue, and the store follows `ProcessSpec`; any other delivery leaves the store untouched |
| DeliveryPipeline.FirstDeliverySucceeds | MSEmail.Worker/Worker.cs:73-113 | a new log delivered on the first try is `Sent` with `SentAt` set, 1 attempt and no error message |
| DeliveryPipeline.ThreeRefusalsFail | MSEmail.Worker/Worker.cs:81-120 | a new log refused three times is `Processing` with no error message and nothing scheduled after the first two refusals, and `Failed` with "Falha definitiva após 3 tentativas" after the third |
| DeliveryPipeline.ReprocessGivesOneAttempt | MSEmail.Application/Handlers/Emails/EmailCommandHandlers.cs:165-201 | reprocessing an exhausted log resets it to `Pending` and queues a message for it; if that delivery is refused, the log is `Failed` again at once, one attempt higher, with the "Falha definitiva" note |
| DeliveryPipeline.EntryPointsStoreQuietLogs | MSEmail.Application/Handlers/Emails/EmailCommandHandlers.cs:95-181 | a created log and a reset log are neither failed with attempts left nor `Retrying`; with `ProcessKeepsQuiet` this makes `Retrying` unreachable |
| Tables.SortBy | MSEmail.Infrastructure/Repositories/EmailLogRepository.cs:28-36 | `OrderBy` returns a sorted permutation of its input |
| Tables.TableOrderMembers | MSEmail.Infrastructure/Repositories/EmailLogRepository.cs:28-36 | a row is enumerated exactly when the table holds it under some key |

## Left out

- SMTP transport (`EmailService`): a boolean oracle `transportOk`. The service catches its own errors and answers false, so that is all the worker sees.
- File storage (`LocalFileStorageService`): `FileExistsAsync` is a predicate parameter. The file bytes and path resolution are not modelled.
- Delayed retry (`Task.Run` + `Task.Delay`): recorded as a `ScheduledRetry` with its due time in the worker's list. The timer and the later publish (and its failure) are not modelled.
- The worker's `ExecuteAsync` loop, cancellation, `StopAsync`, broker connection setup and `Dispose` are left out as hosting plumbing.
- JSON serialisation: a delivery's body is one of three payloads (a message, the literal null, or malformed).
- Concurrency: handlers and the worker run one at a time. Two workers racing on one log, and the interleaving of retries with new messages, are left out.
- Wall-clock time: every `DateTime.UtcNow` read within one operation is the single parameter `now`.
- Controllers and hosting: the API's empty-recipient-list rejection lives in the controller and is not part of this model.
- `ProcessPendingEmailsCommand` is declared and sent but has no handler in the repository, so it is not part of this model.
- The e-mail query handlers return `EmailLogDto` through the `EmailLog`→`EmailLogDto` map (MappingProfile.cs:27-30): the model returns the stored log rows instead, with `Body`, and without the `RecipientName`, `RecipientEmail` and `EmailTemplateName` read through the navigations. The statistics leave out `GeneratedAt`, a clock value.
- AutoMapper profiles are field copies (`NewTemplate`, `EditedTemplate`, `NewRecipient`, `EditedRecipient`). The profile declares no Recipient maps; the model copies the DTO's fields as a convention-based map would.
- The template and recipient query handlers only forward to the repositories and the mapper; the repository queries are modelled instead.
- The message properties `MessageId` and `Timestamp` set on publish are left out: they are random and clock values that nothing reads back.
- Logging is left out.
- EmailTemplateEntity.ExpandFillsPlaceholders: stated only for texts, keys and values without braces. A value that spells a later variable's placeholder is replaced again; `ExpandText` models that, but no lemma describes it.
- String collation: `OrderBy(Name)` uses the ordinal order of characters, and `Email ==` and `Name ==` are exact equality.
- A GUID is a natural number. In error messages its text is its decimal digits rather than the hyphenated hexadecimal form.
- The EF navigations `Recipient` and `EmailTemplate` are lookups of the id in the table. A missing navigation is a null that makes the code throw.
- EF change tracking: the worker's re-read in the catch block returns the object it already tracks (with its unsaved changes), and `Find` elsewhere materialises a fresh object from the row.
- Database-level exceptions in the CRUD handlers and repository creates are left out; only the store calls named above can throw.
- The retry message's `CreatedAt` is the `now` of the failure handling, not the later time the timer fires.
- Integers are unbounded: `AttemptCount` never nears Int32 overflow in practice, and the retry header is parsed within the Int32 range.
