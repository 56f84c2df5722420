/**
 * The two entry points of the pipeline: `SendEmailHandler`, which turns one
 * send request into one delivery log and one queue message per recipient
 * found, and `ReprocessEmailHandler`, which resets one log and queues it again.
 *
 * The specification functions look rows up in the tables directly; the
 * methods look them up with the repositories' `GetById`, and the repositories'
 * `GetByIdFinds` lemmas show that the two agree on a store whose rows sit
 * under their own ids.
 */
module EmailCommands {
  import opened Common
  import opened Text
  import opened TemplateVariables
  import opened EmailLogEntity
  import opened EmailTemplateEntity
  import opened RecipientEntity
  import opened Messages
  import opened MessageQueue
  import LogStore = EmailLogStore
  import TemplateStore
  import RecipientStore

  const TemplateNotFoundMessage: string := "Template de e-mail não encontrado."
  const InternalErrorMessage: string := "Erro interno ao processar e-mails."

  function PdfNotFoundMessage(name: string): string
  {
    "Arquivo PDF '" + name + "' não encontrado."
  }

  function QueuedCountMessage(count: nat): string
  {
    IntToString(count) + " e-mails adicionados à fila de processamento."
  }

  /**
   * What stays fixed while one request is processed. `publishFailsAt` is the
   * number of the publish call (counting from 0 within the request) that
   * throws, if any.
   */
  datatype SendContext = SendContext(
    template: EmailTemplate,
    recipients: RecipientStore.RecipientTable,
    additionalVariables: Variables,
    pdfPath: Option<string>,
    publishFailsAt: Option<nat>,
    settings: RabbitMqSettings,
    now: Time)

  /**
   * What the loop over the recipients changes: the log table, the id supply,
   * the queue, the ids collected so far, and whether an exception ended it.
   */
  datatype SendState = SendState(
    logs: LogStore.LogTable,
    nextId: Guid,
    queue: seq<Delivery>,
    ids: seq<Guid>,
    aborted: bool)

  predicate Known(ctx: SendContext, rid: Guid)
  {
    rid in ctx.recipients
  }

  /** The recipient's own variables, then the request's additional ones assigned over them. */
  function VariablesFor(ctx: SendContext, rid: Guid): Variables
    requires Known(ctx, rid)
  {
    Merge(GetTemplateVariables(ctx.recipients[rid]), ctx.additionalVariables)
  }

  /** The log created for a recipient found, once the store has given it the id `id`. */
  function CreatedRow(ctx: SendContext, rid: Guid, id: Guid): EmailLogRow
    requires Known(ctx, rid)
  {
    var vars := VariablesFor(ctx, rid);
    NewLogRow(rid, ctx.template.id, ExpandText(ctx.template.subject, vars), ExpandText(ctx.template.body, vars), ctx.now)
      .(id := id, createdAt := ctx.now, updatedAt := ctx.now)
  }

  /** The delivery published for that log. */
  function QueuedDelivery(ctx: SendContext, rid: Guid, id: Guid): Delivery
    requires Known(ctx, rid)
  {
    var rec := ctx.recipients[rid];
    var vars := VariablesFor(ctx, rid);
    var message := EmailQueueMessage(id, rid, ctx.template.id, rec.email, rec.name,
                                     ExpandText(ctx.template.subject, vars), ExpandText(ctx.template.body, vars),
                                     ctx.pdfPath, vars, 0, ctx.now);
    Delivery(Json(message), PublishedProperties(ctx.settings))
  }

  /** One turn of the loop: skip an unknown recipient, else create its log, record the id and publish. */
  function DispatchOne(ctx: SendContext, st: SendState, rid: Guid): SendState
  {
    if !Known(ctx, rid) then st
    else
      var id := st.nextId;
      var logs := st.logs[id := CreatedRow(ctx, rid, id)];
      var ids := st.ids + [id];
      if ctx.publishFailsAt == Some(|st.ids|) then SendState(logs, id + 1, st.queue, ids, true)
      else SendState(logs, id + 1, st.queue + [QueuedDelivery(ctx, rid, id)], ids, false)
  }

  /** The loop over the recipient ids, in order, until one publish throws. */
  function Dispatch(ctx: SendContext, st: SendState, rids: seq<Guid>): SendState
    decreases |rids|
  {
    if rids == [] || st.aborted then st else Dispatch(ctx, DispatchOne(ctx, st, rids[0]), rids[1..])
  }

  datatype SendOutcome = SendOutcome(response: SendEmailResponse, state: SendState)

  /** The pdf path the messages carry: the requested file name when it is neither null nor empty. */
  function RequestedPdf(request: SendEmailRequest): Option<string>
  {
    if request.pdfFileName.Some? && request.pdfFileName.value != "" then request.pdfFileName else None
  }

  /** The context of a request whose template has been found. */
  function RequestContext(template: EmailTemplate, recipients: RecipientStore.RecipientTable, request: SendEmailRequest,
                          publishFailsAt: Option<nat>, settings: RabbitMqSettings, now: Time): SendContext
  {
    SendContext(template, recipients, request.additionalVariables, RequestedPdf(request), publishFailsAt, settings, now)
  }

  /** `SendEmailHandler.Handle`: the response and the resulting store and queue. */
  function SendSpec(templates: TemplateStore.TemplateTable, recipients: RecipientStore.RecipientTable,
                    logs: LogStore.LogTable, nextId: Guid, queue: seq<Delivery>, request: SendEmailRequest,
                    fileExists: string -> bool, publishFailsAt: Option<nat>, settings: RabbitMqSettings, now: Time): SendOutcome
  {
    var start := SendState(logs, nextId, queue, [], false);
    if request.emailTemplateId !in templates then
      SendOutcome(SendEmailResponse(false, TemplateNotFoundMessage, []), start)
    else if RequestedPdf(request).Some? && !fileExists(RequestedPdf(request).value) then
      SendOutcome(SendEmailResponse(false, PdfNotFoundMessage(RequestedPdf(request).value), []), start)
    else
      var ctx := RequestContext(templates[request.emailTemplateId], recipients, request, publishFailsAt, settings, now);
      Respond(Dispatch(ctx, start, request.recipientIds))
  }

  /** The response once the loop is over: an internal error if a publish threw, else the ids queued. */
  function Respond(final: SendState): SendOutcome
  {
    if final.aborted then SendOutcome(SendEmailResponse(false, InternalErrorMessage, []), final)
    else SendOutcome(SendEmailResponse(true, QueuedCountMessage(|final.ids|), final.ids), final)
  }

  /** Once the template and the file have been found, the outcome is the one the loop's final state gives. */
  lemma SendSpecDispatched(templates: TemplateStore.TemplateTable, recipients: RecipientStore.RecipientTable,
                           logs: LogStore.LogTable, nextId: Guid, queue: seq<Delivery>, request: SendEmailRequest,
                           fileExists: string -> bool, publishFailsAt: Option<nat>, settings: RabbitMqSettings, now: Time,
                           final: SendState)
    requires request.emailTemplateId in templates
    requires RequestedPdf(request).Some? ==> fileExists(RequestedPdf(request).value)
    requires final == Dispatch(RequestContext(templates[request.emailTemplateId], recipients, request, publishFailsAt, settings, now),
                               SendState(logs, nextId, queue, [], false), request.recipientIds)
    ensures SendSpec(templates, recipients, logs, nextId, queue, request, fileExists, publishFailsAt, settings, now)
         == Respond(final)
  {
  }

  lemma DispatchStep(ctx: SendContext, st: SendState, rids: seq<Guid>, i: nat)
    requires i < |rids| && !st.aborted
    ensures Dispatch(ctx, st, rids[i..]) == Dispatch(ctx, DispatchOne(ctx, st, rids[i]), rids[i + 1..])
  {
    assert rids[i..][0] == rids[i] && rids[i..][1..] == rids[i + 1..];
  }

  /**
   * `SendEmailHandler.Handle`. `fileExists` answers `FileExistsAsync`;
   * `publishFailsAt` says which publish call, if any, throws.
   */
  method HandleSendEmail(request: SendEmailRequest,
                         templates: TemplateStore.EmailTemplateRepository,
                         recipients: RecipientStore.RecipientRepository,
                         logs: LogStore.EmailLogRepository,
                         mq: RabbitMqService,
                         fileExists: string -> bool, publishFailsAt: Option<nat>, now: Time)
    returns (response: SendEmailResponse)
    requires templates.Valid() && recipients.Valid() && logs.Valid()
    modifies logs, mq
    ensures logs.Valid()
    ensures var outcome := SendSpec(templates.rows, recipients.rows, old(logs.rows), old(logs.nextId), old(mq.queue),
                                    request, fileExists, publishFailsAt, mq.settings, now);
      response == outcome.response &&
      logs.rows == outcome.state.logs && logs.nextId == outcome.state.nextId && mq.queue == outcome.state.queue
  {
    var found := templates.Find(request.emailTemplateId);
    if found.None? {
      return SendEmailResponse(false, TemplateNotFoundMessage, []);
    }
    var template := found.value;
    var pdfPath: Option<string> := None;
    if request.pdfFileName.Some? && request.pdfFileName.value != "" {
      if !fileExists(request.pdfFileName.value) {
        return SendEmailResponse(false, PdfNotFoundMessage(request.pdfFileName.value), []);
      }
      pdfPath := request.pdfFileName;
    }
    var ctx := SendContext(template, recipients.rows, request.additionalVariables, pdfPath,
                           publishFailsAt, mq.settings, now);
    ghost var start := SendState(logs.rows, logs.nextId, mq.queue, [], false);
    SendSpecDispatched(templates.rows, recipients.rows, start.logs, start.nextId, start.queue,
                       request, fileExists, publishFailsAt, mq.settings, now, Dispatch(ctx, start, request.recipientIds));
    response := SendAccepted(ctx, request.recipientIds, logs, mq);
  }

  /** The handler once the template and the file have been found: the loop, then the response. */
  method SendAccepted(ctx: SendContext, rids: seq<Guid>,
                      logs: LogStore.EmailLogRepository, mq: RabbitMqService)
    returns (response: SendEmailResponse)
    requires RecipientStore.KeysMatch(ctx.recipients) && logs.Valid() && ctx.settings == mq.settings
    modifies logs, mq
    ensures logs.Valid()
    ensures var final := Dispatch(ctx, SendState(old(logs.rows), old(logs.nextId), old(mq.queue), [], false), rids);
      logs.rows == final.logs && logs.nextId == final.nextId && mq.queue == final.queue &&
      response == Respond(final).response
  {
    var ids, aborted := SendToRecipients(ctx, rids, logs, mq);
    if aborted {
      response := SendEmailResponse(false, InternalErrorMessage, []);
    } else {
      response := SendEmailResponse(true, QueuedCountMessage(|ids|), ids);
    }
  }

  /** The handler's loop over the recipient ids, left at the first publish that throws. */
  method SendToRecipients(ctx: SendContext, rids: seq<Guid>,
                          logs: LogStore.EmailLogRepository, mq: RabbitMqService)
    returns (ids: seq<Guid>, aborted: bool)
    requires RecipientStore.KeysMatch(ctx.recipients) && logs.Valid() && ctx.settings == mq.settings
    modifies logs, mq
    ensures logs.Valid()
    ensures SendState(logs.rows, logs.nextId, mq.queue, ids, aborted)
         == Dispatch(ctx, SendState(old(logs.rows), old(logs.nextId), old(mq.queue), [], false), rids)
  {
    ghost var start := SendState(logs.rows, logs.nextId, mq.queue, [], false);
    ids, aborted := [], false;
    var i := 0;
    while i < |rids| && !aborted
      invariant 0 <= i <= |rids|
      invariant logs.Valid()
      invariant Dispatch(ctx, start, rids) == Dispatch(ctx, SendState(logs.rows, logs.nextId, mq.queue, ids, aborted), rids[i..])
    {
      DispatchStep(ctx, SendState(logs.rows, logs.nextId, mq.queue, ids, aborted), rids, i);
      ids, aborted := SendToRecipient(ctx, rids[i], logs, mq, ids);
      i := i + 1;
    }
  }

  /** One turn of the loop, written out case by case. */
  lemma DispatchOneCases(ctx: SendContext, st: SendState, rid: Guid)
    ensures !Known(ctx, rid) ==> DispatchOne(ctx, st, rid) == st
    ensures Known(ctx, rid) && ctx.publishFailsAt == Some(|st.ids|) ==>
      DispatchOne(ctx, st, rid)
        == SendState(st.logs[st.nextId := CreatedRow(ctx, rid, st.nextId)], st.nextId + 1, st.queue, st.ids + [st.nextId], true)
    ensures Known(ctx, rid) && ctx.publishFailsAt != Some(|st.ids|) ==>
      DispatchOne(ctx, st, rid)
        == SendState(st.logs[st.nextId := CreatedRow(ctx, rid, st.nextId)], st.nextId + 1,
                     st.queue + [QueuedDelivery(ctx, rid, st.nextId)], st.ids + [st.nextId], false)
  {
  }

  /** The body of the handler's loop for one recipient id. */
  method SendToRecipient(ctx: SendContext, rid: Guid,
                         logs: LogStore.EmailLogRepository, mq: RabbitMqService, ids: seq<Guid>)
    returns (ids': seq<Guid>, aborted: bool)
    requires RecipientStore.KeysMatch(ctx.recipients) && logs.Valid() && ctx.settings == mq.settings
    modifies logs, mq
    ensures logs.Valid()
    ensures SendState(logs.rows, logs.nextId, mq.queue, ids', aborted)
         == DispatchOne(ctx, SendState(old(logs.rows), old(logs.nextId), old(mq.queue), ids, false), rid)
  {
    DispatchOneCases(ctx, SendState(logs.rows, logs.nextId, mq.queue, ids, false), rid);
    var recipient := RecipientStore.FindIn(ctx.recipients, rid);
    if recipient.None? {
      return ids, false;
    }
    var variables := MergeVariables(GetTemplateVariables(recipient.value), ctx.additionalVariables);
    var subject, body := ProcessTemplate(ctx.template, variables);
    ids', aborted := CreateAndPublish(ctx, rid, variables, subject, body, logs, mq, ids);
  }

  /** Creating the log of a recipient found and publishing its message. */
  method CreateAndPublish(ctx: SendContext, rid: Guid, variables: Variables, subject: string, body: string,
                          logs: LogStore.EmailLogRepository, mq: RabbitMqService, ids: seq<Guid>)
    returns (ids': seq<Guid>, aborted: bool)
    requires Known(ctx, rid) && logs.Valid() && ctx.settings == mq.settings
    requires variables == VariablesFor(ctx, rid)
    requires subject == ExpandText(ctx.template.subject, variables) && body == ExpandText(ctx.template.body, variables)
    modifies logs, mq
    ensures logs.Valid()
    ensures logs.rows == old(logs.rows)[old(logs.nextId) := CreatedRow(ctx, rid, old(logs.nextId))]
    ensures logs.nextId == old(logs.nextId) + 1 && ids' == ids + [old(logs.nextId)]
    ensures aborted == (ctx.publishFailsAt == Some(|ids|))
    ensures mq.queue == if aborted then old(mq.queue) else old(mq.queue) + [QueuedDelivery(ctx, rid, old(logs.nextId))]
  {
    var rec := ctx.recipients[rid];
    var log := new EmailLog(rid, ctx.template.id, subject, body, ctx.now);
    logs.Create(log, ctx.now);
    ids' := ids + [log.id];
    var message := EmailQueueMessage(log.id, rid, ctx.template.id, rec.email, rec.name, subject, body,
                                     ctx.pdfPath, variables, 0, ctx.now);
    var ok := mq.PublishEmail(message, ctx.publishFailsAt == Some(|ids|));
    aborted := !ok;
  }

  /** The handler's loop copying each additional variable into the recipient's dictionary. */
  method MergeVariables(variables: Variables, extra: Variables) returns (merged: Variables)
    ensures merged == Merge(variables, extra)
  {
    merged := variables;
    var j := 0;
    while j < |extra|
      invariant 0 <= j <= |extra|
      invariant Merge(variables, extra) == Merge(merged, extra[j..])
    {
      assert extra[j..][0] == extra[j] && extra[j..][1..] == extra[j + 1..];
      merged := Assign(merged, extra[j].0, extra[j].1);
      j := j + 1;
    }
  }

  /** What `ReprocessEmailHandler.Handle` does: returns true, returns false, or throws. */
  datatype ReprocessResult = Reprocessed | NotFound | Threw

  datatype ReprocessOutcome = ReprocessOutcome(result: ReprocessResult, logs: LogStore.LogTable, queue: seq<Delivery>)

  /** The log reset for another delivery: pending, without an error message. */
  function ResetRow(r: EmailLogRow, now: Time): EmailLogRow
  {
    r.(status := Pending, errorMessage := None, updatedAt := now)
  }

  /** The message a reprocessed log is queued with: the stored texts and counter, no attachment, no variables. */
  function ReprocessMessage(r: EmailLogRow, rec: Recipient, now: Time): EmailQueueMessage
  {
    EmailQueueMessage(r.id, r.recipientId, r.emailTemplateId, rec.email, rec.name, r.subject, r.body,
                      None, [], r.attemptCount, now)
  }

  /**
   * `ReprocessEmailHandler.Handle`. The reset is saved before the recipient
   * navigation is read, so a missing recipient (a null navigation) or a
   * failing publish throws after the reset has been stored.
   */
  function ReprocessSpec(logs: LogStore.LogTable, recipients: RecipientStore.RecipientTable, queue: seq<Delivery>,
                         id: Guid, publishFails: bool, settings: RabbitMqSettings, now: Time): ReprocessOutcome
  {
    if id !in logs then ReprocessOutcome(NotFound, logs, queue)
    else
      var r := logs[id];
      var reset := logs[id := ResetRow(r, now)];
      if r.recipientId !in recipients || publishFails then ReprocessOutcome(Threw, reset, queue)
      else ReprocessOutcome(Reprocessed, reset,
                            queue + [Delivery(Json(ReprocessMessage(r, recipients[r.recipientId], now)),
                                              PublishedProperties(settings))])
  }

  /** `ReprocessEmailHandler.Handle`; `publishFails` says whether the publish call throws. */
  method HandleReprocessEmail(id: Guid, logs: LogStore.EmailLogRepository, recipients: RecipientStore.RecipientRepository,
                              mq: RabbitMqService, publishFails: bool, now: Time)
    returns (result: ReprocessResult)
    requires logs.Valid() && recipients.Valid()
    modifies logs, mq
    ensures logs.Valid()
    ensures var outcome := ReprocessSpec(old(logs.rows), recipients.rows, old(mq.queue), id, publishFails, mq.settings, now);
      result == outcome.result && logs.rows == outcome.logs && mq.queue == outcome.queue
  {
    var log := logs.Find(id);
    if log == null {
      return NotFound;
    }
    ResetLog(log, logs, now);
    result := Requeue(log, recipients, mq, publishFails, now);
  }

  /** The reset of a loaded log and its save. */
  method ResetLog(log: EmailLog, logs: LogStore.EmailLogRepository, now: Time)
    requires logs.Valid() && log.id in logs.rows && logs.rows[log.id] == log.Row()
    modifies logs, log
    ensures logs.Valid()
    ensures log.Row() == ResetRow(old(log.Row()), now)
    ensures logs.rows == old(logs.rows)[log.id := log.Row()]
  {
    log.status := Pending;
    log.errorMessage := None;
    log.updatedAt := now;
    var saved := logs.Update(log, now, false);
  }

  /** Queuing a reset log again: its recipient is read and its message published. */
  method Requeue(log: EmailLog, recipients: RecipientStore.RecipientRepository, mq: RabbitMqService,
                 publishFails: bool, now: Time)
    returns (result: ReprocessResult)
    requires recipients.Valid()
    modifies mq
    ensures log.recipientId !in recipients.rows || publishFails ==> result == Threw && mq.queue == old(mq.queue)
    ensures log.recipientId in recipients.rows && !publishFails ==>
      result == Reprocessed &&
      mq.queue == old(mq.queue) + [Delivery(Json(ReprocessMessage(log.Row(), recipients.rows[log.recipientId], now)),
                                            PublishedProperties(mq.settings))]
  {
    var recipient := recipients.Find(log.recipientId);
    if recipient.None? {
      return Threw;
    }
    var message := EmailQueueMessage(log.id, log.recipientId, log.emailTemplateId,
                                     recipient.value.email, recipient.value.name, log.subject, log.body,
                                     None, [], log.attemptCount, now);
    var published := mq.PublishEmail(message, publishFails);
    result := if published then Reprocessed else Threw;
  }
}
