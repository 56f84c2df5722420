/**
 * What the worker's handling of one message does to the delivery logs, stated
 * on `ProcessSpec` (which `Worker.ProcessEmailMessage` is proved to follow):
 * the not-found no-op, the success path, the failure path on which `Retrying`
 * can never be reached, the recovery after a failed save, and the fields the
 * worker never touches.
 */
module DeliveryWorkerProperties {
  import opened Common
  import opened EmailLogEntity
  import opened Messages
  import opened DeliveryWorker
  import LogStore = EmailLogStore
  import RecipientStore

  /** A log nobody will retry: not a failure with attempts left, and not marked for a retry. */
  predicate Quiet(r: EmailLogRow)
  {
    !ShouldRetry(r) && r.status != Retrying
  }

  predicate AllQuiet(logs: LogStore.LogTable)
  {
    forall k :: k in logs ==> Quiet(logs[k])
  }

  /** The log the worker saves before calling the transport: `Processing`, one more attempt, nothing else changed. */
  lemma ProcessingRowEffect(r: EmailLogRow, now: Time)
    ensures var p := ProcessingRow(r, now);
      p.status == Processing && p.attemptCount == r.attemptCount + 1 && SameIdentity(p, r) &&
      p.errorMessage == r.errorMessage && p.sentAt == r.sentAt && Quiet(p)
  {
  }

  /**
   * `HandleEmailFailure` on a log that should be retried: it is marked
   * `Retrying` with the "Tentativa" note and, once saved, exactly one delayed
   * publish of the stored id, subject, body and counter, without attachment,
   * is scheduled for when the delay has passed.
   */
  lemma HandleFailureRetries(r: EmailLogRow, error: string, recipients: RecipientStore.RecipientTable,
                             settings: RabbitMqSettings, now: Time, saveThrows: bool)
    requires ShouldRetry(r)
    ensures var f := HandleFailure(r, error, recipients, settings, now, saveThrows);
      f.row.status == Retrying && f.row.errorMessage == Some(RetryNote(r.attemptCount, r.maxAttempts, error)) &&
      SameIdentity(f.row, r) && f.row.attemptCount == r.attemptCount && f.threw == saveThrows &&
      (saveThrows || r.recipientId !in recipients ==> f.retries == []) &&
      (!saveThrows && r.recipientId in recipients ==>
        |f.retries| == 1 && f.retries[0].dueAt == now + settings.retryDelayInSeconds &&
        var m := f.retries[0].message;
        m.emailLogId == r.id && m.recipientId == r.recipientId && m.emailTemplateId == r.emailTemplateId &&
        m.subject == r.subject && m.body == r.body && m.attemptCount == r.attemptCount && m.pdfPath.None? &&
        m.recipientEmail == recipients[r.recipientId].email && m.recipientName == recipients[r.recipientId].name)
  {
  }

  /**
   * `HandleEmailFailure` on any other log: no retry, and `MarkAsDefinitiveFailure`
   * makes it `Failed` with the "Falha definitiva" note at the limit, while below
   * the limit only the update stamp changes.
   */
  lemma HandleFailureSettles(r: EmailLogRow, error: string, recipients: RecipientStore.RecipientTable,
                             settings: RabbitMqSettings, now: Time, saveThrows: bool)
    requires !ShouldRetry(r)
    ensures var f := HandleFailure(r, error, recipients, settings, now, saveThrows);
      f.retries == [] && f.threw == saveThrows && SameIdentity(f.row, r) && f.row.attemptCount == r.attemptCount &&
      f.row == if r.attemptCount >= r.maxAttempts
               then r.(status := Failed, errorMessage := Some(DefinitiveNote(r.attemptCount, error)), updatedAt := now)
               else r.(updatedAt := now)
    ensures r.status != Retrying ==> Quiet(HandleFailure(r, error, recipients, settings, now, saveThrows).row)
  {
  }

  /** The attachment handed to the transport is the message's path exactly when it is non-empty and the file exists. */
  lemma AttachmentRule(message: EmailQueueMessage, fileExists: string -> bool)
    ensures AttachmentFor(message, fileExists).Some? <==>
      message.pdfPath.Some? && message.pdfPath.value != "" && fileExists(message.pdfPath.value)
    ensures AttachmentFor(message, fileExists).Some? ==> AttachmentFor(message, fileExists) == message.pdfPath
  {
  }

  /** A message whose log is not stored changes nothing, sends nothing and schedules nothing. */
  lemma NotFoundIsNoOp(logs: LogStore.LogTable, recipients: RecipientStore.RecipientTable, message: EmailQueueMessage,
                       fileExists: string -> bool, transportOk: bool, faults: set<WorkerFault>, exceptionMessage: string,
                       settings: RabbitMqSettings, now: Time)
    requires LoadThrows !in faults && message.emailLogId !in logs
    ensures ProcessSpec(logs, recipients, message, fileExists, transportOk, faults, exceptionMessage, settings, now) ==
            WorkerOutcome(logs, [], None)
  {
  }

  /**
   * When the transport accepts the mail and no save throws, the stored log is
   * `Sent`, stamped with the send time, with one more attempt and its error
   * message kept, and nothing is scheduled; this holds whatever the stored
   * status was (there is no guard against a log already sent or failed).
   */
  lemma SuccessPath(logs: LogStore.LogTable, recipients: RecipientStore.RecipientTable, message: EmailQueueMessage,
                    fileExists: string -> bool, faults: set<WorkerFault>, exceptionMessage: string,
                    settings: RabbitMqSettings, now: Time)
    requires message.emailLogId in logs
    requires LoadThrows !in faults && ProcessingSaveThrows !in faults && SentSaveThrows !in faults
    ensures var id := message.emailLogId;
      var out := ProcessSpec(logs, recipients, message, fileExists, true, faults, exceptionMessage, settings, now);
      out.logs == logs[id := out.logs[id]] && out.retries == [] && out.mail == Some(MailFor(message, fileExists)) &&
      out.logs[id].status == Sent && out.logs[id].sentAt == Some(now) &&
      out.logs[id].attemptCount == logs[id].attemptCount + 1 &&
      out.logs[id].errorMessage == logs[id].errorMessage && SameIdentity(out.logs[id], logs[id])
  {
    var id := message.emailLogId;
    var p := ProcessingRow(logs[id], now);
    assert TrySpec(logs, recipients, message, fileExists, true, faults, settings, now) ==
           Attempt(logs[id := p][id := WithSent(p, now)], [], Some(MailFor(message, fileExists)), false, Some(WithSent(p, now)));
  }

  /**
   * When the transport refuses the mail and no store call throws: the log was
   * marked `Processing` before the call, so `ShouldRetry` is false and nothing
   * is scheduled; with the attempts used up the log becomes `Failed` with the
   * "Falha definitiva" note, and below the limit it stays `Processing` with
   * its error message unchanged.
   */
  lemma FailurePath(logs: LogStore.LogTable, recipients: RecipientStore.RecipientTable, message: EmailQueueMessage,
                    fileExists: string -> bool, exceptionMessage: string, settings: RabbitMqSettings, now: Time)
    requires message.emailLogId in logs
    ensures var id := message.emailLogId;
      var r := logs[id];
      var n := r.attemptCount + 1;
      var out := ProcessSpec(logs, recipients, message, fileExists, false, {}, exceptionMessage, settings, now);
      out.logs == logs[id := out.logs[id]] && out.retries == [] && out.mail == Some(MailFor(message, fileExists)) &&
      out.logs[id].attemptCount == n && SameIdentity(out.logs[id], r) &&
      (n >= r.maxAttempts ==> out.logs[id].status == Failed &&
                              out.logs[id].errorMessage == Some(DefinitiveNote(n, SendFailedNote))) &&
      (n < r.maxAttempts ==> out.logs[id].status == Processing && out.logs[id].errorMessage == r.errorMessage)
  {
    var id := message.emailLogId;
    var p := ProcessingRow(logs[id], now);
    var f := HandleFailure(p, SendFailedNote, recipients, settings, now, false);
    HandleFailureSettles(p, SendFailedNote, recipients, settings, now, false);
    assert TrySpec(logs, recipients, message, fileExists, false, {}, settings, now) ==
           Attempt(logs[id := p][id := f.row], [], Some(MailFor(message, fileExists)), false, Some(f.row));
  }

  /**
   * When the save after `MarkAsSent` throws, the catch block hands the log it
   * already holds (now `Sent`) to the failure handling: below the limit the
   * `Sent` log is saved after all, but at the limit the mail that went out is
   * recorded as `Failed` with the exception's message.
   */
  lemma SentSaveFailureRecovery(logs: LogStore.LogTable, recipients: RecipientStore.RecipientTable, message: EmailQueueMessage,
                                fileExists: string -> bool, exceptionMessage: string, settings: RabbitMqSettings, now: Time)
    requires message.emailLogId in logs
    ensures var id := message.emailLogId;
      var r := logs[id];
      var n := r.attemptCount + 1;
      var out := ProcessSpec(logs, recipients, message, fileExists, true, {SentSaveThrows}, exceptionMessage, settings, now);
      out.logs == logs[id := out.logs[id]] && out.retries == [] && out.mail == Some(MailFor(message, fileExists)) &&
      out.logs[id].attemptCount == n &&
      (n < r.maxAttempts ==> out.logs[id].status == Sent && out.logs[id].sentAt == Some(now)) &&
      (n >= r.maxAttempts ==> out.logs[id].status == Failed &&
                              out.logs[id].errorMessage == Some(DefinitiveNote(n, exceptionMessage)))
  {
    var id := message.emailLogId;
    var p := ProcessingRow(logs[id], now);
    var s := WithSent(p, now);
    var faults := {SentSaveThrows};
    var a := TrySpec(logs, recipients, message, fileExists, true, faults, settings, now);
    assert a == Attempt(logs[id := p], [], Some(MailFor(message, fileExists)), true, Some(s));
    HandleFailureSettles(s, exceptionMessage, recipients, settings, now, false);
    var f := HandleFailure(s, exceptionMessage, recipients, settings, now, false);
    assert CatchSpec(a.logs, a.loaded, id, recipients, faults, exceptionMessage, settings, now) ==
           Recovery(logs[id := p][id := f.row], []);
  }

  /** The failure handling as the worker applies it in the `try` block and in the `catch` block. */
  lemma HandleFailureKeeps(r: EmailLogRow, error: string, recipients: RecipientStore.RecipientTable,
                           settings: RabbitMqSettings, now: Time, saveThrows: bool)
    ensures var f := HandleFailure(r, error, recipients, settings, now, saveThrows);
      SameIdentity(f.row, r) && f.row.attemptCount == r.attemptCount && (Quiet(r) ==> Quiet(f.row) && f.retries == [])
  {
    if ShouldRetry(r) {
      HandleFailureRetries(r, error, recipients, settings, now, saveThrows);
    } else {
      HandleFailureSettles(r, error, recipients, settings, now, saveThrows);
    }
  }

  /** The transport call and what follows it change only the saved log, into one grown from it by the same count. */
  lemma DeliverKeeps(logs: LogStore.LogTable, id: Guid, p: EmailLogRow, recipients: RecipientStore.RecipientTable,
                     message: EmailQueueMessage, fileExists: string -> bool, transportOk: bool,
                     faults: set<WorkerFault>, settings: RabbitMqSettings, now: Time)
    requires id in logs && logs[id] == p
    ensures var a := DeliverSpec(logs, id, p, recipients, message, fileExists, transportOk, faults, settings, now);
      a.logs.Keys == logs.Keys && (forall k :: k in logs && k != id ==> a.logs[k] == logs[k]) &&
      a.loaded.Some? && SameIdentity(a.loaded.value, p) && a.loaded.value.attemptCount == p.attemptCount &&
      (a.logs[id] == p || a.logs[id] == a.loaded.value) &&
      (Quiet(p) ==> Quiet(a.loaded.value) && a.retries == [])
  {
    if !transportOk {
      HandleFailureKeeps(p, SendFailedNote, recipients, settings, now, FailureSaveThrows in faults);
    }
  }

  /** The `try` block changes only the message's log, by at most one attempt, and hands on a log grown from it. */
  lemma TryKeeps(logs: LogStore.LogTable, recipients: RecipientStore.RecipientTable, message: EmailQueueMessage,
                 fileExists: string -> bool, transportOk: bool, faults: set<WorkerFault>,
                 settings: RabbitMqSettings, now: Time)
    ensures var id := message.emailLogId;
      var a := TrySpec(logs, recipients, message, fileExists, transportOk, faults, settings, now);
      a.logs.Keys == logs.Keys &&
      (forall k :: k in logs && k != id ==> a.logs[k] == logs[k]) &&
      (id in logs ==> SameIdentity(a.logs[id], logs[id]) &&
                      logs[id].attemptCount <= a.logs[id].attemptCount <= logs[id].attemptCount + 1) &&
      (a.loaded.Some? ==> id in logs && SameIdentity(a.loaded.value, logs[id]) &&
                          a.loaded.value.attemptCount == logs[id].attemptCount + 1) &&
      (AllQuiet(logs) ==> AllQuiet(a.logs) && a.retries == [] && (a.loaded.Some? ==> Quiet(a.loaded.value)))
  {
    var id := message.emailLogId;
    if LoadThrows !in faults && id in logs && ProcessingSaveThrows !in faults {
      var p := ProcessingRow(logs[id], now);
      DeliverKeeps(logs[id := p], id, p, recipients, message, fileExists, transportOk, faults, settings, now);
    }
  }

  /**
   * The `catch` block changes only the message's log, into the failure
   * handling of the log it reads again (the one handed on, or else the
   * stored one).
   */
  lemma CatchKeeps(logs: LogStore.LogTable, loaded: Option<EmailLogRow>, id: Guid,
                   recipients: RecipientStore.RecipientTable, faults: set<WorkerFault>, exceptionMessage: string,
                   settings: RabbitMqSettings, now: Time)
    requires loaded.Some? ==> id in logs
    ensures var c := CatchSpec(logs, loaded, id, recipients, faults, exceptionMessage, settings, now);
      c.logs.Keys == logs.Keys &&
      (forall k :: k in logs && k != id ==> c.logs[k] == logs[k]) &&
      (id in logs ==> var reread := if loaded.Some? then loaded.value else logs[id];
                      c.logs[id] == logs[id] ||
                      (SameIdentity(c.logs[id], reread) && c.logs[id].attemptCount == reread.attemptCount)) &&
      (AllQuiet(logs) && (loaded.Some? ==> Quiet(loaded.value)) ==> AllQuiet(c.logs) && c.retries == [])
  {
    if id in logs && ReloadThrows !in faults {
      var reread := if loaded.Some? then loaded.value else logs[id];
      HandleFailureKeeps(reread, exceptionMessage, recipients, settings, now, RecoverySaveThrows in faults);
    }
  }

  /**
   * Whatever throws: only the message's log can change, no log is added or
   * removed, the changed log keeps its identity fields, and its counter goes
   * up by at most one.
   */
  lemma ProcessKeepsIdentity(logs: LogStore.LogTable, recipients: RecipientStore.RecipientTable, message: EmailQueueMessage,
                             fileExists: string -> bool, transportOk: bool, faults: set<WorkerFault>, exceptionMessage: string,
                             settings: RabbitMqSettings, now: Time)
    ensures var id := message.emailLogId;
      var out := ProcessSpec(logs, recipients, message, fileExists, transportOk, faults, exceptionMessage, settings, now);
      out.logs.Keys == logs.Keys &&
      (forall k :: k in logs && k != id ==> out.logs[k] == logs[k]) &&
      (id in logs ==> SameIdentity(out.logs[id], logs[id]) &&
                      logs[id].attemptCount <= out.logs[id].attemptCount <= logs[id].attemptCount + 1)
  {
    var id := message.emailLogId;
    var a := TrySpec(logs, recipients, message, fileExists, transportOk, faults, settings, now);
    TryKeeps(logs, recipients, message, fileExists, transportOk, faults, settings, now);
    if a.threw {
      CatchKeeps(a.logs, a.loaded, id, recipients, faults, exceptionMessage, settings, now);
    }
  }

  /**
   * `Retrying` is unreachable through the worker: over a store in which no
   * log is waiting for a retry, handling any message, whatever throws, keeps
   * it so and schedules no retry. Only `HandleEmailFailure` sets `Retrying`,
   * and only for a `Failed` log, while the worker always marks the log
   * `Processing` before failing it.
   */
  lemma ProcessKeepsQuiet(logs: LogStore.LogTable, recipients: RecipientStore.RecipientTable, message: EmailQueueMessage,
                          fileExists: string -> bool, transportOk: bool, faults: set<WorkerFault>, exceptionMessage: string,
                          settings: RabbitMqSettings, now: Time)
    requires AllQuiet(logs)
    ensures var out := ProcessSpec(logs, recipients, message, fileExists, transportOk, faults, exceptionMessage, settings, now);
      AllQuiet(out.logs) && out.retries == []
  {
    var a := TrySpec(logs, recipients, message, fileExists, transportOk, faults, settings, now);
    TryKeeps(logs, recipients, message, fileExists, transportOk, faults, settings, now);
    if a.threw {
      CatchKeeps(a.logs, a.loaded, message.emailLogId, recipients, faults, exceptionMessage, settings, now);
    }
  }
}
