/**
 * What the send and reprocess handlers promise, stated without reference to
 * the loop that computes them: which recipients get a log, which ids those
 * logs receive, which rows and deliveries appear, and how a failing publish
 * cuts the batch short.
 */
module EmailCommandProperties {
  import opened Common
  import opened TemplateVariables
  import opened EmailLogEntity
  import opened EmailTemplateEntity
  import opened RecipientEntity
  import opened Messages
  import opened MessageQueue
  import opened EmailCommands
  import LogStore = EmailLogStore
  import RecipientStore

  /** The requested recipient ids that are in the table, in request order, repetitions kept. */
  function Found(recipients: RecipientStore.RecipientTable, rids: seq<Guid>): (f: seq<Guid>)
    ensures |f| <= |rids|
    ensures forall j :: 0 <= j < |f| ==> f[j] in recipients
    decreases |rids|
  {
    if rids == [] then []
    else (if rids[0] in recipients then [rids[0]] else []) + Found(recipients, rids[1..])
  }

  /** The ids `b, b + 1, ..., b + n - 1`. */
  function Consecutive(b: Guid, n: nat): (r: seq<Guid>)
    ensures |r| == n
    ensures forall j :: 0 <= j < n ==> r[j] == b + j
    decreases n
  {
    if n == 0 then [] else [b] + Consecutive(b + 1, n - 1)
  }

  /**
   * Whether the publish that throws falls within this batch: `done` publish
   * calls were made before it and `found` recipients are still to be served.
   */
  predicate Aborts(publishFailsAt: Option<nat>, done: nat, found: nat)
  {
    publishFailsAt.Some? && done <= publishFailsAt.value < done + found
  }

  /** How many logs the batch creates: all of them, or up to and including the one whose publish throws. */
  function CreatedCount(publishFailsAt: Option<nat>, done: nat, found: nat): (n: nat)
    ensures n <= found
    ensures Aborts(publishFailsAt, done, found) ==> n > 0
  {
    if Aborts(publishFailsAt, done, found) then publishFailsAt.value - done + 1 else found
  }

  /** How many deliveries the batch queues: one per log created, except the log whose publish throws. */
  function QueuedCount(publishFailsAt: Option<nat>, done: nat, found: nat): (q: nat)
    ensures q <= found
  {
    if Aborts(publishFailsAt, done, found) then publishFailsAt.value - done else found
  }

  /**
   * Each occurrence of a known id in the request is served once; an unknown id
   * is never served.
   */
  lemma {:induction false} FoundOccurrences(recipients: RecipientStore.RecipientTable, rids: seq<Guid>, x: Guid)
    ensures multiset(Found(recipients, rids))[x] == if x in recipients then multiset(rids)[x] else 0
    decreases |rids|
  {
    if rids != [] {
      FoundOccurrences(recipients, rids[1..], x);
      assert rids == [rids[0]] + rids[1..];
    }
  }

  /**
   * The loop's control: it is cut short exactly when the failing publish is
   * one of this batch's, and the ids it collects are the next `CreatedCount`
   * ids of the store, in order.
   */
  lemma {:induction false} DispatchCounts(ctx: SendContext, st: SendState, rids: seq<Guid>)
    requires !st.aborted
    ensures var final := Dispatch(ctx, st, rids);
      var found := |Found(ctx.recipients, rids)|;
      var n := CreatedCount(ctx.publishFailsAt, |st.ids|, found);
      final.aborted == Aborts(ctx.publishFailsAt, |st.ids|, found) &&
      final.ids == st.ids + Consecutive(st.nextId, n) &&
      final.nextId == st.nextId + n
    decreases |rids|
  {
    if rids != [] {
      var rid := rids[0];
      var st1 := DispatchOne(ctx, st, rid);
      if !Known(ctx, rid) {
        DispatchCounts(ctx, st, rids[1..]);
      } else if ctx.publishFailsAt == Some(|st.ids|) {
        assert Dispatch(ctx, st, rids) == st1;
        assert Consecutive(st.nextId, 1) == [st.nextId];
      } else {
        DispatchCounts(ctx, st1, rids[1..]);
        var n' := CreatedCount(ctx.publishFailsAt, |st1.ids|, |Found(ctx.recipients, rids[1..])|);
        assert Consecutive(st.nextId, n' + 1) == [st.nextId] + Consecutive(st.nextId + 1, n');
      }
    }
  }

  /** The loop creates rows exactly under the next `CreatedCount` ids. */
  lemma {:induction false} DispatchLogKeys(ctx: SendContext, st: SendState, rids: seq<Guid>)
    requires !st.aborted
    ensures var n := CreatedCount(ctx.publishFailsAt, |st.ids|, |Found(ctx.recipients, rids)|);
      forall k :: k in Dispatch(ctx, st, rids).logs <==> k in st.logs || st.nextId <= k < st.nextId + n
    decreases |rids|
  {
    if rids != [] {
      var st1 := DispatchOne(ctx, st, rids[0]);
      assert Dispatch(ctx, st, rids) == Dispatch(ctx, st1, rids[1..]);
      if !Known(ctx, rids[0]) {
        DispatchLogKeys(ctx, st, rids[1..]);
      } else if ctx.publishFailsAt != Some(|st.ids|) {
        DispatchLogKeys(ctx, st1, rids[1..]);
      }
    }
  }

  /** The rows stored before the loop, apart from any under the new ids, are left as they were. */
  lemma {:induction false} DispatchKeepsRows(ctx: SendContext, st: SendState, rids: seq<Guid>, k: Guid)
    requires !st.aborted
    requires k in st.logs
    requires !(st.nextId <= k < st.nextId + CreatedCount(ctx.publishFailsAt, |st.ids|, |Found(ctx.recipients, rids)|))
    ensures k in Dispatch(ctx, st, rids).logs && Dispatch(ctx, st, rids).logs[k] == st.logs[k]
    decreases |rids|
  {
    if rids != [] {
      var st1 := DispatchOne(ctx, st, rids[0]);
      assert Dispatch(ctx, st, rids) == Dispatch(ctx, st1, rids[1..]);
      assert Found(ctx.recipients, rids) == (if Known(ctx, rids[0]) then [rids[0]] else []) + Found(ctx.recipients, rids[1..]);
      if !Known(ctx, rids[0]) {
        DispatchKeepsRows(ctx, st, rids[1..], k);
      } else if ctx.publishFailsAt != Some(|st.ids|) {
        DispatchKeepsRows(ctx, st1, rids[1..], k);
      }
    }
  }

  /** The row under the `j`-th new id is the one built for the `j`-th recipient found. */
  lemma {:induction false} DispatchNewRow(ctx: SendContext, st: SendState, rids: seq<Guid>, j: nat)
    requires !st.aborted
    requires j < CreatedCount(ctx.publishFailsAt, |st.ids|, |Found(ctx.recipients, rids)|)
    ensures st.nextId + j in Dispatch(ctx, st, rids).logs
    ensures Dispatch(ctx, st, rids).logs[st.nextId + j] == CreatedRow(ctx, Found(ctx.recipients, rids)[j], st.nextId + j)
    decreases |rids|
  {
    var rid := rids[0];
    var st1 := DispatchOne(ctx, st, rid);
    var final := Dispatch(ctx, st1, rids[1..]);
    assert Dispatch(ctx, st, rids) == final;
    var f := Found(ctx.recipients, rids);
    var f' := Found(ctx.recipients, rids[1..]);
    if !Known(ctx, rid) {
      assert f == f';
      DispatchNewRow(ctx, st, rids[1..], j);
    } else {
      assert f == [rid] + f';
      if ctx.publishFailsAt == Some(|st.ids|) {
        assert final == st1;
      } else if j == 0 {
        DispatchKeepsRows(ctx, st1, rids[1..], st.nextId);
      } else {
        DispatchNewRow(ctx, st1, rids[1..], j - 1);
        assert st.nextId + j == st1.nextId + (j - 1);
      }
    }
  }

  /** The loop appends `QueuedCount` deliveries behind the queue's old contents. */
  lemma {:induction false} DispatchQueuePrefix(ctx: SendContext, st: SendState, rids: seq<Guid>)
    requires !st.aborted
    ensures var final := Dispatch(ctx, st, rids);
      |final.queue| == |st.queue| + QueuedCount(ctx.publishFailsAt, |st.ids|, |Found(ctx.recipients, rids)|) &&
      final.queue[..|st.queue|] == st.queue
    decreases |rids|
  {
    if rids != [] {
      var st1 := DispatchOne(ctx, st, rids[0]);
      var final := Dispatch(ctx, st1, rids[1..]);
      assert Dispatch(ctx, st, rids) == final;
      if !Known(ctx, rids[0]) {
        DispatchQueuePrefix(ctx, st, rids[1..]);
      } else if ctx.publishFailsAt != Some(|st.ids|) {
        DispatchQueuePrefix(ctx, st1, rids[1..]);
        assert final.queue[..|st.queue|] == final.queue[..|st1.queue|][..|st.queue|];
      }
    }
  }

  /** The `j`-th delivery appended is the one for the `j`-th recipient found and the `j`-th new id. */
  lemma {:induction false} DispatchNewDelivery(ctx: SendContext, st: SendState, rids: seq<Guid>, j: nat)
    requires !st.aborted
    requires j < QueuedCount(ctx.publishFailsAt, |st.ids|, |Found(ctx.recipients, rids)|)
    ensures |st.queue| + j < |Dispatch(ctx, st, rids).queue|
    ensures Dispatch(ctx, st, rids).queue[|st.queue| + j] == QueuedDelivery(ctx, Found(ctx.recipients, rids)[j], st.nextId + j)
    decreases |rids|
  {
    var rid := rids[0];
    var st1 := DispatchOne(ctx, st, rid);
    var final := Dispatch(ctx, st1, rids[1..]);
    assert Dispatch(ctx, st, rids) == final;
    var f := Found(ctx.recipients, rids);
    var f' := Found(ctx.recipients, rids[1..]);
    if !Known(ctx, rid) {
      assert f == f';
      DispatchNewDelivery(ctx, st, rids[1..], j);
    } else if ctx.publishFailsAt == Some(|st.ids|) {
      assert false;
    } else {
      assert f == [rid] + f';
      DispatchQueuePrefix(ctx, st1, rids[1..]);
      if j == 0 {
        assert final.queue[..|st1.queue|][|st.queue|] == st1.queue[|st.queue|];
      } else {
        DispatchNewDelivery(ctx, st1, rids[1..], j - 1);
        assert |st.queue| + j == |st1.queue| + (j - 1) && st.nextId + j == st1.nextId + (j - 1);
      }
    }
  }

  /** The log created for a recipient: pending, no attempt made, texts expanded with that recipient's variables. */
  lemma CreatedRowFields(ctx: SendContext, rid: Guid, id: Guid)
    requires Known(ctx, rid)
    ensures var r := CreatedRow(ctx, rid, id);
      var vars := VariablesFor(ctx, rid);
      r.id == id && r.recipientId == rid && r.emailTemplateId == ctx.template.id &&
      r.status == Pending && r.attemptCount == 0 && r.maxAttempts == DefaultMaxAttempts &&
      r.sentAt.None? && r.errorMessage.None? && !ShouldRetry(r) &&
      r.subject == ExpandText(ctx.template.subject, vars) && r.body == ExpandText(ctx.template.body, vars)
  {
  }

  /**
   * The delivery published for a log carries that log's id, texts and
   * recipient, the requested attachment, a zero attempt counter, and no
   * retry header.
   */
  lemma QueuedDeliveryMatchesLog(ctx: SendContext, rid: Guid, id: Guid)
    requires Known(ctx, rid)
    ensures var d := QueuedDelivery(ctx, rid, id);
      var r := CreatedRow(ctx, rid, id);
      d.payload.Json? &&
      d.payload.message.emailLogId == r.id && d.payload.message.recipientId == r.recipientId &&
      d.payload.message.emailTemplateId == r.emailTemplateId &&
      d.payload.message.subject == r.subject && d.payload.message.body == r.body &&
      d.payload.message.recipientEmail == ctx.recipients[rid].email &&
      d.payload.message.pdfPath == ctx.pdfPath && d.payload.message.attemptCount == 0 &&
      GetRetryCount(d.properties) == 0
  {
  }

  /**
   * The variables a recipient's texts are expanded with: a key of the
   * request's additional variables takes the request's value, any other key
   * keeps the recipient's own value.
   */
  lemma VariablesOverride(ctx: SendContext, rid: Guid, k: string)
    requires Known(ctx, rid) && UniqueKeys(ctx.additionalVariables)
    ensures var rec := ctx.recipients[rid];
      Lookup(VariablesFor(ctx, rid), k) ==
        if HasKey(ctx.additionalVariables, k) then Lookup(ctx.additionalVariables, k)
        else Lookup(GetTemplateVariables(rec), k)
    ensures !HasKey(ctx.additionalVariables, NameKey) ==>
      Lookup(VariablesFor(ctx, rid), NameKey) == Some(ctx.recipients[rid].name)
  {
    var rec := ctx.recipients[rid];
    MergeLookup(GetTemplateVariables(rec), ctx.additionalVariables, k);
    MergeLookup(GetTemplateVariables(rec), ctx.additionalVariables, NameKey);
    TemplateVariablesLookup(rec);
  }

  /** An unknown template or a missing attachment is refused before anything is stored or queued. */
  lemma SendRejects(templates: TemplateStore.TemplateTable, recipients: RecipientStore.RecipientTable,
                    logs: LogStore.LogTable, nextId: Guid, queue: seq<Delivery>, request: SendEmailRequest,
                    fileExists: string -> bool, publishFailsAt: Option<nat>, settings: RabbitMqSettings, now: Time)
    requires request.emailTemplateId !in templates ||
             (RequestedPdf(request).Some? && !fileExists(RequestedPdf(request).value))
    ensures var out := SendSpec(templates, recipients, logs, nextId, queue, request, fileExists, publishFailsAt, settings, now);
      !out.response.success && out.response.processedEmailLogIds == [] &&
      out.state.logs == logs && out.state.nextId == nextId && out.state.queue == queue &&
      out.response.message == if request.emailTemplateId !in templates then TemplateNotFoundMessage
                              else PdfNotFoundMessage(RequestedPdf(request).value)
  {
  }

  /**
   * A request whose template and attachment are found: it succeeds exactly
   * when no publish throws for one of its recipients found, and then reports
   * one fresh id per recipient occurrence found, in order; otherwise it
   * reports an internal error and no ids, while the logs created before the
   * failure, including the one whose publish threw, stay in the store.
   */
  lemma SendAcceptedResponse(templates: TemplateStore.TemplateTable, recipients: RecipientStore.RecipientTable,
                             logs: LogStore.LogTable, nextId: Guid, queue: seq<Delivery>, request: SendEmailRequest,
                             fileExists: string -> bool, publishFailsAt: Option<nat>, settings: RabbitMqSettings, now: Time)
    requires request.emailTemplateId in templates
    requires RequestedPdf(request).Some? ==> fileExists(RequestedPdf(request).value)
    ensures var out := SendSpec(templates, recipients, logs, nextId, queue, request, fileExists, publishFailsAt, settings, now);
      var found := |Found(recipients, request.recipientIds)|;
      (out.response.success <==> !Aborts(publishFailsAt, 0, found)) &&
      (out.response.success ==>
         out.response.processedEmailLogIds == Consecutive(nextId, found) &&
         out.response.message == QueuedCountMessage(found)) &&
      (!out.response.success ==>
         out.response.processedEmailLogIds == [] && out.response.message == InternalErrorMessage) &&
      out.state.nextId == nextId + CreatedCount(publishFailsAt, 0, found)
  {
    var ctx := RequestContext(templates[request.emailTemplateId], recipients, request, publishFailsAt, settings, now);
    var start := SendState(logs, nextId, queue, [], false);
    SendSpecDispatched(templates, recipients, logs, nextId, queue, request, fileExists, publishFailsAt, settings, now,
                       Dispatch(ctx, start, request.recipientIds));
    DispatchCounts(ctx, start, request.recipientIds);
  }

  /** An accepted request leaves the store and queue in the state the loop ends in. */
  lemma SendAcceptedState(templates: TemplateStore.TemplateTable, recipients: RecipientStore.RecipientTable,
                          logs: LogStore.LogTable, nextId: Guid, queue: seq<Delivery>, request: SendEmailRequest,
                          fileExists: string -> bool, publishFailsAt: Option<nat>, settings: RabbitMqSettings, now: Time)
    requires request.emailTemplateId in templates
    requires RequestedPdf(request).Some? ==> fileExists(RequestedPdf(request).value)
    ensures SendSpec(templates, recipients, logs, nextId, queue, request, fileExists, publishFailsAt, settings, now).state
         == Dispatch(RequestContext(templates[request.emailTemplateId], recipients, request, publishFailsAt, settings, now),
                     SendState(logs, nextId, queue, [], false), request.recipientIds)
  {
    var ctx := RequestContext(templates[request.emailTemplateId], recipients, request, publishFailsAt, settings, now);
    SendSpecDispatched(templates, recipients, logs, nextId, queue, request, fileExists, publishFailsAt, settings, now,
                       Dispatch(ctx, SendState(logs, nextId, queue, [], false), request.recipientIds));
  }

  /**
   * The log table after an accepted request: a new row under each new id,
   * built for the recipient found in that position, and every other row
   * untouched.
   */
  lemma SendAcceptedLogs(templates: TemplateStore.TemplateTable, recipients: RecipientStore.RecipientTable,
                         logs: LogStore.LogTable, nextId: Guid, queue: seq<Delivery>, request: SendEmailRequest,
                         fileExists: string -> bool, publishFailsAt: Option<nat>, settings: RabbitMqSettings, now: Time)
    requires request.emailTemplateId in templates
    requires RequestedPdf(request).Some? ==> fileExists(RequestedPdf(request).value)
    ensures var out := SendSpec(templates, recipients, logs, nextId, queue, request, fileExists, publishFailsAt, settings, now);
      var ctx := RequestContext(templates[request.emailTemplateId], recipients, request, publishFailsAt, settings, now);
      var f := Found(recipients, request.recipientIds);
      var n := CreatedCount(publishFailsAt, 0, |f|);
      (forall k :: k in out.state.logs <==> k in logs || nextId <= k < nextId + n) &&
      (forall k :: k in logs && !(nextId <= k < nextId + n) ==> out.state.logs[k] == logs[k]) &&
      (forall j :: 0 <= j < n ==> out.state.logs[nextId + j] == CreatedRow(ctx, f[j], nextId + j))
  {
    var ctx := RequestContext(templates[request.emailTemplateId], recipients, request, publishFailsAt, settings, now);
    var start := SendState(logs, nextId, queue, [], false);
    var rids := request.recipientIds;
    SendAcceptedState(templates, recipients, logs, nextId, queue, request, fileExists, publishFailsAt, settings, now);
    var final := Dispatch(ctx, start, rids);
    var f := Found(recipients, rids);
    var n := CreatedCount(publishFailsAt, 0, |f|);
    DispatchLogKeys(ctx, start, rids);
    forall k | k in logs && !(nextId <= k < nextId + n) ensures final.logs[k] == logs[k] {
      DispatchKeepsRows(ctx, start, rids, k);
    }
    forall j | 0 <= j < n ensures final.logs[nextId + j] == CreatedRow(ctx, f[j], nextId + j) {
      DispatchNewRow(ctx, start, rids, j);
    }
  }

  /**
   * The queue after an accepted request: its old contents, then one delivery
   * per new log, in order, except the log whose publish threw.
   */
  lemma SendAcceptedQueue(templates: TemplateStore.TemplateTable, recipients: RecipientStore.RecipientTable,
                          logs: LogStore.LogTable, nextId: Guid, queue: seq<Delivery>, request: SendEmailRequest,
                          fileExists: string -> bool, publishFailsAt: Option<nat>, settings: RabbitMqSettings, now: Time)
    requires request.emailTemplateId in templates
    requires RequestedPdf(request).Some? ==> fileExists(RequestedPdf(request).value)
    ensures var out := SendSpec(templates, recipients, logs, nextId, queue, request, fileExists, publishFailsAt, settings, now);
      var ctx := RequestContext(templates[request.emailTemplateId], recipients, request, publishFailsAt, settings, now);
      var f := Found(recipients, request.recipientIds);
      var q := QueuedCount(publishFailsAt, 0, |f|);
      |out.state.queue| == |queue| + q && out.state.queue[..|queue|] == queue &&
      (forall j :: 0 <= j < q ==> out.state.queue[|queue| + j] == QueuedDelivery(ctx, f[j], nextId + j))
  {
    var ctx := RequestContext(templates[request.emailTemplateId], recipients, request, publishFailsAt, settings, now);
    var start := SendState(logs, nextId, queue, [], false);
    var rids := request.recipientIds;
    SendAcceptedState(templates, recipients, logs, nextId, queue, request, fileExists, publishFailsAt, settings, now);
    var final := Dispatch(ctx, start, rids);
    var f := Found(recipients, rids);
    var q := QueuedCount(publishFailsAt, 0, |f|);
    DispatchQueuePrefix(ctx, start, rids);
    forall j | 0 <= j < q ensures final.queue[|queue| + j] == QueuedDelivery(ctx, f[j], nextId + j) {
      DispatchNewDelivery(ctx, start, rids, j);
    }
  }

  /**
   * Reprocessing: an unknown id changes nothing; a known one is saved as
   * pending without an error message, everything else about it kept
   * (including a send time it already had), and exactly one delivery with
   * the stored texts and counter and no attachment is queued when the
   * recipient is found and the publish succeeds.
   */
  lemma ReprocessEffect(logs: LogStore.LogTable, recipients: RecipientStore.RecipientTable, queue: seq<Delivery>,
                        id: Guid, publishFails: bool, settings: RabbitMqSettings, now: Time)
    requires LogStore.KeysMatch(logs)
    ensures var out := ReprocessSpec(logs, recipients, queue, id, publishFails, settings, now);
      (id !in logs ==> out.result == NotFound && out.logs == logs && out.queue == queue) &&
      (id in logs ==>
         var r := logs[id];
         var r' := out.logs[id];
         out.result != NotFound &&
         out.logs == logs[id := r'] &&
         r'.status == Pending && r'.errorMessage.None? && r'.updatedAt == now &&
         SameIdentity(r', r) && r'.attemptCount == r.attemptCount && r'.sentAt == r.sentAt &&
         r'.createdAt == r.createdAt &&
         (out.result == Reprocessed <==> r.recipientId in recipients && !publishFails) &&
         (out.result == Reprocessed ==>
            |out.queue| == |queue| + 1 && out.queue[..|queue|] == queue &&
            out.queue[|queue|].payload.Json? &&
            out.queue[|queue|].payload.message.emailLogId == id &&
            out.queue[|queue|].payload.message.attemptCount == r.attemptCount &&
            out.queue[|queue|].payload.message.subject == r.subject &&
            out.queue[|queue|].payload.message.body == r.body &&
            out.queue[|queue|].payload.message.pdfPath.None? &&
            out.queue[|queue|].payload.message.variables == []) &&
         (out.result != Reprocessed ==> out.queue == queue))
  {
    if id in logs && !publishFails && logs[id].recipientId in recipients {
      var out := ReprocessSpec(logs, recipients, queue, id, publishFails, settings, now);
      assert out.queue[..|queue|] == queue;
    }
  }
}
