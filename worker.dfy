/**
 * The background worker's handling of one queue message: load the log, mark
 * it as processing and count the attempt, call the mail transport, then
 * record the success or hand the failure to `HandleEmailFailure`; any
 * exception is caught, the log is read again and handed to the failure
 * handling, and whatever that throws is swallowed.
 *
 * The store calls that can throw are named by `WorkerFault`s; the transport
 * (which catches its own errors and answers false) and the file check are
 * boolean oracles; `exceptionMessage` is the message of the exception caught.
 */
module DeliveryWorker {
  import opened Common
  import opened Text
  import opened EmailLogEntity
  import opened RecipientEntity
  import opened Messages
  import LogStore = EmailLogStore
  import RecipientStore

  /** The store calls of one message's processing, each of which may throw. */
  datatype WorkerFault =
    | LoadThrows            // the first `GetByIdAsync`
    | ProcessingSaveThrows  // `UpdateAsync` after marking the log as processing
    | SentSaveThrows        // `UpdateAsync` after `MarkAsSent`
    | FailureSaveThrows     // `UpdateAsync` inside `HandleEmailFailure`, on the normal path
    | ReloadThrows          // the `GetByIdAsync` in the catch block
    | RecoverySaveThrows    // `UpdateAsync` inside `HandleEmailFailure`, from the catch block

  /** A retry publish that `Task.Run` will make once the delay has passed. */
  datatype ScheduledRetry = ScheduledRetry(dueAt: int, message: EmailQueueMessage)

  const SendFailedNote: string := "Falha no envio do e-mail"

  function RetryNote(attempt: int, max: int, error: string): string
  {
    "Tentativa " + IntToString(attempt) + "/" + IntToString(max) + ": " + error
  }

  function DefinitiveNote(attempt: int, error: string): string
  {
    "Falha definitiva após " + IntToString(attempt) + " tentativas: " + error
  }

  /** The message the delayed retry publishes: the stored texts and counter, no attachment, no variables. */
  function RetryMessage(r: EmailLogRow, rec: Recipient, now: Time): EmailQueueMessage
  {
    EmailQueueMessage(r.id, r.recipientId, r.emailTemplateId, rec.email, rec.name, r.subject, r.body,
                      None, [], r.attemptCount, now)
  }

  /** The attachment handed to the transport: the message's path when it is non-empty and the file exists. */
  function AttachmentFor(message: EmailQueueMessage, fileExists: string -> bool): Option<string>
  {
    if message.pdfPath.Some? && message.pdfPath.value != "" && fileExists(message.pdfPath.value)
    then message.pdfPath else None
  }

  function MailFor(message: EmailQueueMessage, fileExists: string -> bool): MailRequest
  {
    MailRequest(message.recipientEmail, message.recipientName, message.subject, message.body,
                AttachmentFor(message, fileExists))
  }

  /**
   * The outcome of `HandleEmailFailure`: the log object's new state, whether
   * its save threw, and the retry it scheduled, if any.
   */
  datatype FailureOutcome = FailureOutcome(row: EmailLogRow, threw: bool, retries: seq<ScheduledRetry>)

  /**
   * `HandleEmailFailure`: a log that should be retried is marked `Retrying`
   * and, once saved, a delayed publish is scheduled (when the recipient
   * navigation is there to read); any other log gets `MarkAsDefinitiveFailure`,
   * which only acts once the attempts are used up. `saveThrows` says that the
   * save throws.
   */
  function HandleFailure(r: EmailLogRow, error: string, recipients: RecipientStore.RecipientTable,
                         settings: RabbitMqSettings, now: Time, saveThrows: bool): FailureOutcome
  {
    if ShouldRetry(r) then
      var row := r.(status := Retrying, errorMessage := Some(RetryNote(r.attemptCount, r.maxAttempts, error)), updatedAt := now);
      if saveThrows then FailureOutcome(row, true, [])
      else if r.recipientId !in recipients then FailureOutcome(row, false, [])
      else
        var due := now + settings.retryDelayInSeconds;
        FailureOutcome(row, false, [ScheduledRetry(due, RetryMessage(row, recipients[r.recipientId], now))])
    else
      FailureOutcome(WithDefinitiveFailure(r, DefinitiveNote(r.attemptCount, error), now).(updatedAt := now), saveThrows, [])
  }

  /** The log as the worker saves it before calling the transport. */
  function ProcessingRow(r: EmailLogRow, now: Time): EmailLogRow
  {
    WithAttemptIncremented(r.(status := Processing), now)
  }

  /**
   * The state the `try` block leaves: the table, the retries scheduled, the
   * mail handed to the transport, whether it threw, and the state of the log
   * object it loaded.
   */
  datatype Attempt = Attempt(logs: LogStore.LogTable, retries: seq<ScheduledRetry>, mail: Option<MailRequest>,
                             threw: bool, loaded: Option<EmailLogRow>)

  /** The `try` block of `ProcessEmailMessage`. */
  function TrySpec(logs: LogStore.LogTable, recipients: RecipientStore.RecipientTable, message: EmailQueueMessage,
                   fileExists: string -> bool, transportOk: bool, faults: set<WorkerFault>,
                   settings: RabbitMqSettings, now: Time): Attempt
  {
    var id := message.emailLogId;
    if LoadThrows in faults then Attempt(logs, [], None, true, None)
    else if id !in logs then Attempt(logs, [], None, false, None)
    else
      var p := ProcessingRow(logs[id], now);
      if ProcessingSaveThrows in faults then Attempt(logs, [], None, true, Some(p))
      else DeliverSpec(logs[id := p], id, p, recipients, message, fileExists, transportOk, faults, settings, now)
  }

  /**
   * The rest of the `try` block once the log `p` has been saved as
   * processing: the transport call, then `MarkAsSent` and its save, or the
   * failure handling.
   */
  function DeliverSpec(logs: LogStore.LogTable, id: Guid, p: EmailLogRow, recipients: RecipientStore.RecipientTable,
                       message: EmailQueueMessage, fileExists: string -> bool, transportOk: bool,
                       faults: set<WorkerFault>, settings: RabbitMqSettings, now: Time): Attempt
  {
    var mail := Some(MailFor(message, fileExists));
    if transportOk then
      var s := WithSent(p, now);
      if SentSaveThrows in faults then Attempt(logs, [], mail, true, Some(s))
      else Attempt(logs[id := s], [], mail, false, Some(s))
    else
      var f := HandleFailure(p, SendFailedNote, recipients, settings, now, FailureSaveThrows in faults);
      Attempt(if f.threw then logs else logs[id := f.row], f.retries, mail, f.threw, Some(f.row))
  }

  datatype WorkerOutcome = WorkerOutcome(logs: LogStore.LogTable, retries: seq<ScheduledRetry>, mail: Option<MailRequest>)

  /** What the `catch` block changes: the table and the retries scheduled. */
  datatype Recovery = Recovery(logs: LogStore.LogTable, retries: seq<ScheduledRetry>)

  /**
   * The `catch` block: the log read again is the object loaded before, in the
   * state the `try` block left it (the context hands back the entity it
   * already tracks), or, when nothing was loaded, the stored row; it goes
   * through the failure handling, and an exception from the read or the save
   * is swallowed.
   */
  function CatchSpec(logs: LogStore.LogTable, loaded: Option<EmailLogRow>, id: Guid,
                     recipients: RecipientStore.RecipientTable, faults: set<WorkerFault>, exceptionMessage: string,
                     settings: RabbitMqSettings, now: Time): Recovery
  {
    var reread := if loaded.Some? then loaded else if id in logs then Some(logs[id]) else None;
    if ReloadThrows in faults || reread.None? then Recovery(logs, [])
    else
      var f := HandleFailure(reread.value, exceptionMessage, recipients, settings, now, RecoverySaveThrows in faults);
      Recovery(if f.threw then logs else logs[id := f.row], f.retries)
  }

  /** `ProcessEmailMessage`: the `try` block, then, if it threw, the `catch` block. */
  function ProcessSpec(logs: LogStore.LogTable, recipients: RecipientStore.RecipientTable, message: EmailQueueMessage,
                       fileExists: string -> bool, transportOk: bool, faults: set<WorkerFault>, exceptionMessage: string,
                       settings: RabbitMqSettings, now: Time): WorkerOutcome
  {
    var a := TrySpec(logs, recipients, message, fileExists, transportOk, faults, settings, now);
    if !a.threw then WorkerOutcome(a.logs, a.retries, a.mail)
    else
      var c := CatchSpec(a.logs, a.loaded, message.emailLogId, recipients, faults, exceptionMessage, settings, now);
      WorkerOutcome(c.logs, a.retries + c.retries, a.mail)
  }

  /** The worker: its settings and the retry publishes it has scheduled. */
  class Worker {
    const settings: RabbitMqSettings
    var scheduled: seq<ScheduledRetry>

    constructor (settings: RabbitMqSettings)
      ensures this.settings == settings && scheduled == []
    {
      this.settings := settings;
      scheduled := [];
    }

    /** `ProcessEmailMessage`: never throws; its effect is the table, the retries scheduled and the mail sent. */
    method ProcessEmailMessage(message: EmailQueueMessage, logs: LogStore.EmailLogRepository,
                               recipients: RecipientStore.RecipientTable, fileExists: string -> bool,
                               transportOk: bool, faults: set<WorkerFault>, exceptionMessage: string, now: Time)
      returns (mail: Option<MailRequest>)
      requires logs.Valid()
      modifies this, logs
      ensures logs.Valid() && logs.nextId == old(logs.nextId)
      ensures var out := ProcessSpec(old(logs.rows), recipients, message, fileExists, transportOk, faults,
                                     exceptionMessage, settings, now);
        logs.rows == out.logs && scheduled == old(scheduled) + out.retries && mail == out.mail
    {
      var threw, loaded;
      mail, threw, loaded := TrySend(message, logs, recipients, fileExists, transportOk, faults, now);
      if threw {
        Recover(message.emailLogId, loaded, logs, recipients, faults, exceptionMessage, now);
      }
    }

    /** The `catch` block, given the log object the `try` block loaded, if any. */
    method Recover(id: Guid, loaded: EmailLog?, logs: LogStore.EmailLogRepository,
                   recipients: RecipientStore.RecipientTable, faults: set<WorkerFault>, exceptionMessage: string, now: Time)
      requires logs.Valid()
      requires loaded != null ==> loaded.id == id && id in logs.rows
      modifies this, logs, loaded
      ensures logs.Valid() && logs.nextId == old(logs.nextId)
      ensures var c := CatchSpec(old(logs.rows), if loaded == null then None else Some(old(loaded.Row())), id,
                                 recipients, faults, exceptionMessage, settings, now);
        logs.rows == c.logs && scheduled == old(scheduled) + c.retries
    {
      if ReloadThrows in faults {
        return;
      }
      var log := loaded;
      if log == null {
        log := logs.Find(id);
      }
      if log != null {
        var _ := HandleEmailFailure(log, logs, exceptionMessage, recipients, RecoverySaveThrows in faults, now);
      }
    }

    /** The `try` block; `loaded` is the log object it loaded, if any. */
    method TrySend(message: EmailQueueMessage, logs: LogStore.EmailLogRepository,
                   recipients: RecipientStore.RecipientTable, fileExists: string -> bool,
                   transportOk: bool, faults: set<WorkerFault>, now: Time)
      returns (mail: Option<MailRequest>, threw: bool, loaded: EmailLog?)
      requires logs.Valid()
      modifies this, logs
      ensures logs.Valid() && logs.nextId == old(logs.nextId)
      ensures var a := TrySpec(old(logs.rows), recipients, message, fileExists, transportOk, faults, settings, now);
        logs.rows == a.logs && scheduled == old(scheduled) + a.retries && mail == a.mail && threw == a.threw &&
        (loaded == null <==> a.loaded.None?) &&
        (loaded != null ==> fresh(loaded) && loaded.Row() == a.loaded.value &&
                            loaded.id == message.emailLogId && loaded.id in logs.rows)
    {
      if LoadThrows in faults {
        return None, true, null;
      }
      var log := logs.Find(message.emailLogId);
      if log == null {
        return None, false, null;
      }
      log.status := Processing;
      log.IncrementAttempt(now);
      var saved := logs.Update(log, now, ProcessingSaveThrows in faults);
      if !saved {
        return None, true, log;
      }
      mail, threw := Deliver(message, log, logs, recipients, fileExists, transportOk, faults, now);
      loaded := log;
    }

    /** The `try` block once the log has been saved as processing: the transport call and what follows it. */
    method Deliver(message: EmailQueueMessage, log: EmailLog, logs: LogStore.EmailLogRepository,
                   recipients: RecipientStore.RecipientTable, fileExists: string -> bool,
                   transportOk: bool, faults: set<WorkerFault>, now: Time)
      returns (mail: Option<MailRequest>, threw: bool)
      requires logs.Valid() && log.id in logs.rows
      modifies this, logs, log
      ensures logs.Valid() && logs.nextId == old(logs.nextId) && log.id == old(log.id)
      ensures var a := DeliverSpec(old(logs.rows), log.id, old(log.Row()), recipients, message, fileExists, transportOk,
                                   faults, settings, now);
        logs.rows == a.logs && scheduled == old(scheduled) + a.retries && mail == a.mail && threw == a.threw &&
        a.loaded == Some(log.Row())
    {
      var pdfPath: Option<string> := None;
      if message.pdfPath.Some? && message.pdfPath.value != "" {
        if fileExists(message.pdfPath.value) {
          pdfPath := message.pdfPath;
        }
      }
      mail := Some(MailRequest(message.recipientEmail, message.recipientName, message.subject, message.body, pdfPath));
      if transportOk {
        log.MarkAsSent(now);
        var saved := logs.Update(log, now, SentSaveThrows in faults);
        threw := !saved;
      } else {
        threw := HandleEmailFailure(log, logs, SendFailedNote, recipients, FailureSaveThrows in faults, now);
      }
    }

    /** `HandleEmailFailure` on a log object whose row is in the store. */
    method HandleEmailFailure(log: EmailLog, logs: LogStore.EmailLogRepository, error: string,
                              recipients: RecipientStore.RecipientTable, saveThrows: bool, now: Time)
      returns (threw: bool)
      requires logs.Valid() && log.id in logs.rows
      modifies this, logs, log
      ensures logs.Valid() && logs.nextId == old(logs.nextId) && log.id == old(log.id)
      ensures var f := HandleFailure(old(log.Row()), error, recipients, settings, now, saveThrows);
        log.Row() == f.row && threw == f.threw && scheduled == old(scheduled) + f.retries &&
        logs.rows == if threw then old(logs.rows) else old(logs.rows)[log.id := f.row]
    {
      if ShouldRetry(log.Row()) {
        log.status := Retrying;
        log.errorMessage := Some(RetryNote(log.attemptCount, log.maxAttempts, error));
        var saved := logs.Update(log, now, saveThrows);
        threw := !saved;
        if saved && log.recipientId in recipients {
          var rec := recipients[log.recipientId];
          var due := now + settings.retryDelayInSeconds;
          scheduled := scheduled + [ScheduledRetry(due, RetryMessage(log.Row(), rec, now))];
        }
      } else {
        log.MarkAsDefinitiveFailure(DefinitiveNote(log.attemptCount, error), now);
        var saved := logs.Update(log, now, saveThrows);
        threw := !saved;
      }
    }
  }
}
