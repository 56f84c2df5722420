/**
 * The pieces put together: the broker's callback handing a delivery to the
 * worker, and what a log goes through over several deliveries of its
 * message.
 */
module DeliveryPipeline {
  import opened Common
  import opened EmailLogEntity
  import opened Messages
  import opened MessageQueue
  import opened DeliveryWorker
  import opened DeliveryWorkerProperties
  import opened EmailCommands
  import opened EmailCommandProperties
  import LogStore = EmailLogStore
  import RecipientStore

  /**
   * The `ReceivedAsync` callback with `ProcessEmailMessage` as its handler,
   * for the delivery at the head of the queue. The worker never throws, so
   * every delivery that deserialises is acknowledged and leaves the queue;
   * any other delivery leaves the store untouched.
   */
  method ConsumeNext(service: RabbitMqService, worker: Worker, logs: LogStore.EmailLogRepository,
                     recipients: RecipientStore.RecipientTable, fileExists: string -> bool, transportOk: bool,
                     faults: set<WorkerFault>, exceptionMessage: string, now: Time)
    returns (s: Settlement, mail: Option<MailRequest>)
    requires |service.queue| > 0 && logs.Valid()
    modifies service, worker, logs
    ensures logs.Valid()
    ensures var d := old(service.queue)[0];
      s == Decide(d, false, service.settings) && service.queue == AfterSettlement(old(service.queue), s)
    ensures old(service.queue)[0].payload.Json? ==>
      s == Ack && service.queue == old(service.queue)[1..] &&
      var out := ProcessSpec(old(logs.rows), recipients, old(service.queue)[0].payload.message, fileExists, transportOk,
                             faults, exceptionMessage, worker.settings, now);
      logs.rows == out.logs && worker.scheduled == old(worker.scheduled) + out.retries && mail == out.mail
    ensures !old(service.queue)[0].payload.Json? ==>
      logs.rows == old(logs.rows) && worker.scheduled == old(worker.scheduled) && mail.None?
  {
    var d := service.queue[0];
    mail := None;
    if d.payload.Json? {
      mail := worker.ProcessEmailMessage(d.payload.message, logs, recipients, fileExists, transportOk, faults,
                                         exceptionMessage, now);
    }
    var handled;
    handled, s := service.Receive(false);
  }

  /** A new log delivered on its first attempt: `Sent`, stamped, one attempt counted, no error. */
  lemma FirstDeliverySucceeds(logs: LogStore.LogTable, recipients: RecipientStore.RecipientTable, message: EmailQueueMessage,
                              fileExists: string -> bool, exceptionMessage: string, settings: RabbitMqSettings, now: Time)
    requires message.emailLogId in logs
    requires logs[message.emailLogId].status == Pending && logs[message.emailLogId].attemptCount == 0
    requires logs[message.emailLogId].errorMessage.None?
    ensures var r := ProcessSpec(logs, recipients, message, fileExists, true, {}, exceptionMessage, settings, now).logs[message.emailLogId];
      r.status == Sent && r.sentAt == Some(now) && r.attemptCount == 1 && r.errorMessage.None?
  {
    SuccessPath(logs, recipients, message, fileExists, {}, exceptionMessage, settings, now);
  }

  /**
   * A new log (three attempts allowed) whose mail the transport refuses three
   * times: after the first two it is still `Processing` with no error message
   * and nothing scheduled, and the third makes it `Failed` with the
   * "Falha definitiva após 3 tentativas" note.
   */
  lemma ThreeRefusalsFail(logs: LogStore.LogTable, recipients: RecipientStore.RecipientTable, message: EmailQueueMessage,
                          fileExists: string -> bool, exceptionMessage: string, settings: RabbitMqSettings,
                          t1: Time, t2: Time, t3: Time)
    requires message.emailLogId in logs
    requires logs[message.emailLogId].attemptCount == 0 && logs[message.emailLogId].maxAttempts == DefaultMaxAttempts
    requires logs[message.emailLogId].errorMessage.None?
    ensures var id := message.emailLogId;
      var o1 := ProcessSpec(logs, recipients, message, fileExists, false, {}, exceptionMessage, settings, t1);
      var o2 := ProcessSpec(o1.logs, recipients, message, fileExists, false, {}, exceptionMessage, settings, t2);
      var o3 := ProcessSpec(o2.logs, recipients, message, fileExists, false, {}, exceptionMessage, settings, t3);
      o1.logs[id].status == Processing && o1.logs[id].attemptCount == 1 && o1.logs[id].errorMessage.None? &&
      o2.logs[id].status == Processing && o2.logs[id].attemptCount == 2 && o2.logs[id].errorMessage.None? &&
      o3.logs[id].status == Failed && o3.logs[id].attemptCount == 3 &&
      o3.logs[id].errorMessage == Some(DefinitiveNote(3, SendFailedNote)) &&
      o1.retries == [] && o2.retries == [] && o3.retries == []
  {
    var id := message.emailLogId;
    FailurePath(logs, recipients, message, fileExists, exceptionMessage, settings, t1);
    var o1 := ProcessSpec(logs, recipients, message, fileExists, false, {}, exceptionMessage, settings, t1);
    FailurePath(o1.logs, recipients, message, fileExists, exceptionMessage, settings, t2);
    var o2 := ProcessSpec(o1.logs, recipients, message, fileExists, false, {}, exceptionMessage, settings, t2);
    FailurePath(o2.logs, recipients, message, fileExists, exceptionMessage, settings, t3);
  }

  /**
   * Reprocessing a log whose attempts are used up buys exactly one more
   * attempt: the queued message is for that log, and if the transport refuses
   * it the log is `Failed` again at once, with the counter one higher.
   */
  lemma ReprocessGivesOneAttempt(logs: LogStore.LogTable, recipients: RecipientStore.RecipientTable, queue: seq<Delivery>,
                                 id: Guid, settings: RabbitMqSettings, fileExists: string -> bool, exceptionMessage: string,
                                 t1: Time, t2: Time)
    requires LogStore.KeysMatch(logs) && id in logs && logs[id].recipientId in recipients
    requires logs[id].attemptCount >= logs[id].maxAttempts
    ensures var re := ReprocessSpec(logs, recipients, queue, id, false, settings, t1);
      re.result == Reprocessed && re.logs[id].status == Pending &&
      var m := re.queue[|queue|].payload.message;
      m.emailLogId == id &&
      var out := ProcessSpec(re.logs, recipients, m, fileExists, false, {}, exceptionMessage, settings, t2);
      out.logs[id].status == Failed && out.logs[id].attemptCount == logs[id].attemptCount + 1 &&
      out.logs[id].errorMessage == Some(DefinitiveNote(logs[id].attemptCount + 1, SendFailedNote))
  {
    ReprocessEffect(logs, recipients, queue, id, false, settings, t1);
    var re := ReprocessSpec(logs, recipients, queue, id, false, settings, t1);
    FailurePath(re.logs, recipients, re.queue[|queue|].payload.message, fileExists, exceptionMessage, settings, t2);
  }

  /**
   * The entry points only ever store logs nobody will retry: a created log is
   * `Pending` with no attempts, and a reprocessed one is `Pending`; together
   * with `ProcessKeepsQuiet` this makes `Retrying` unreachable.
   */
  lemma EntryPointsStoreQuietLogs(r: EmailLogRow, recipientId: Guid, templateId: Guid, subject: string, body: string, now: Time)
    ensures Quiet(NewLogRow(recipientId, templateId, subject, body, now))
    ensures Quiet(ResetRow(r, now))
  {
  }
}
