/**
 * The delivery log of one e-mail to one recipient and its status machine:
 * the `EmailStatus` enumeration, the stored record (`EmailLogRow`), the entity
 * methods as functions on records, and the `EmailLog` entity object whose
 * methods assign its fields in place.
 */
module EmailLogEntity {
  import opened Common

  datatype EmailStatus = Pending | Processing | Sent | Failed | Retrying

  /** The columns of one `EmailLogs` row (the entity without its navigations). */
  datatype EmailLogRow = EmailLogRow(
    id: Guid,
    recipientId: Guid,
    emailTemplateId: Guid,
    subject: string,
    body: string,
    status: EmailStatus,
    attemptCount: int,
    maxAttempts: int,
    errorMessage: Option<string>,
    sentAt: Option<Time>,
    createdAt: Time,
    updatedAt: Time)

  const DefaultMaxAttempts: int := 3

  /** A log as `new EmailLog { RecipientId, EmailTemplateId, Subject, Body }` builds it. */
  function NewLogRow(recipientId: Guid, emailTemplateId: Guid, subject: string, body: string, now: Time): (r: EmailLogRow)
    ensures r.status == Pending && r.attemptCount == 0 && r.maxAttempts == DefaultMaxAttempts
    ensures r.sentAt.None? && r.errorMessage.None? && r.id == EmptyGuid
    ensures r.recipientId == recipientId && r.emailTemplateId == emailTemplateId
    ensures r.subject == subject && r.body == body
    ensures !ShouldRetry(r)
  {
    EmailLogRow(EmptyGuid, recipientId, emailTemplateId, subject, body,
                Pending, 0, DefaultMaxAttempts, None, None, now, now)
  }

  /** `ShouldRetry()`: a failed log that still has attempts left. */
  predicate ShouldRetry(r: EmailLogRow)
  {
    r.status == Failed && r.attemptCount < r.maxAttempts
  }

  /** The fields that no entity method changes. */
  predicate SameIdentity(a: EmailLogRow, b: EmailLogRow)
  {
    a.id == b.id && a.recipientId == b.recipientId && a.emailTemplateId == b.emailTemplateId &&
    a.subject == b.subject && a.body == b.body && a.maxAttempts == b.maxAttempts
  }

  /** `MarkAsDefinitiveFailure(message)`: takes effect only once the attempts are used up. */
  function WithDefinitiveFailure(r: EmailLogRow, message: string, now: Time): EmailLogRow
  {
    if r.attemptCount >= r.maxAttempts
    then r.(status := Failed, errorMessage := Some(message), updatedAt := now)
    else r
  }

  /** `IncrementAttempt()`. */
  function WithAttemptIncremented(r: EmailLogRow, now: Time): EmailLogRow
  {
    r.(attemptCount := r.attemptCount + 1, updatedAt := now)
  }

  /** `MarkAsSent()`. */
  function WithSent(r: EmailLogRow, now: Time): EmailLogRow
  {
    r.(status := Sent, sentAt := Some(now), updatedAt := now)
  }

  /**
   * Definitive failure: at or past the limit the log becomes `Failed` with the
   * given message; below the limit nothing at all changes.
   */
  lemma DefinitiveFailureEffect(r: EmailLogRow, message: string, now: Time)
    ensures r.attemptCount >= r.maxAttempts ==>
      var f := WithDefinitiveFailure(r, message, now);
      f.status == Failed && f.errorMessage == Some(message) && !ShouldRetry(f)
    ensures r.attemptCount < r.maxAttempts ==> WithDefinitiveFailure(r, message, now) == r
  {
  }

  /** `IncrementAttempt` raises the counter by exactly one and changes nothing else but the stamp. */
  lemma IncrementEffect(r: EmailLogRow, now: Time)
    ensures WithAttemptIncremented(r, now).attemptCount == r.attemptCount + 1
    ensures WithAttemptIncremented(r, now).status == r.status
    ensures SameIdentity(WithAttemptIncremented(r, now), r)
  {
  }

  /**
   * `MarkAsSent` leaves the log `Sent` with a send time, keeps the error
   * message and the attempt counter, and a second call re-stamps the send
   * time instead of keeping the first one.
   */
  lemma SentEffect(r: EmailLogRow, t1: Time, t2: Time)
    ensures WithSent(r, t1).status == Sent && WithSent(r, t1).sentAt == Some(t1)
    ensures WithSent(r, t1).errorMessage == r.errorMessage
    ensures WithSent(r, t1).attemptCount == r.attemptCount
    ensures WithSent(WithSent(r, t1), t2) == WithSent(r, t2)
    ensures t1 != t2 ==> WithSent(WithSent(r, t1), t2).sentAt != WithSent(r, t1).sentAt
  {
  }

  /** The entity methods, as steps that can be chained. */
  datatype LogStep = Increment | MarkSent | DefinitiveFailure(message: string)

  function ApplyStep(r: EmailLogRow, step: LogStep, now: Time): EmailLogRow
  {
    match step
    case Increment => WithAttemptIncremented(r, now)
    case MarkSent => WithSent(r, now)
    case DefinitiveFailure(m) => WithDefinitiveFailure(r, m, now)
  }

  function ApplySteps(r: EmailLogRow, steps: seq<LogStep>, now: Time): EmailLogRow
    decreases |steps|
  {
    if steps == [] then r else ApplySteps(ApplyStep(r, steps[0], now), steps[1..], now)
  }

  function Increments(steps: seq<LogStep>): nat
  {
    if steps == [] then 0 else (if steps[0].Increment? then 1 else 0) + Increments(steps[1..])
  }

  /** A log that is failed has used up its attempts: nothing is waiting for a retry. */
  predicate Settled(r: EmailLogRow)
  {
    !ShouldRetry(r)
  }

  /**
   * Over any sequence of entity method calls the identity fields stay as they
   * were, the counter grows by exactly the number of increments, and a log
   * with nothing to retry keeps having nothing to retry.
   */
  lemma {:induction false} StepsPreserve(r: EmailLogRow, steps: seq<LogStep>, now: Time)
    ensures SameIdentity(ApplySteps(r, steps, now), r)
    ensures ApplySteps(r, steps, now).attemptCount == r.attemptCount + Increments(steps)
    ensures Settled(r) ==> Settled(ApplySteps(r, steps, now))
    decreases |steps|
  {
    if steps != [] {
      var next := ApplyStep(r, steps[0], now);
      StepsPreserve(next, steps[1..], now);
    }
  }

  /** The `EmailLog` entity object. */
  class EmailLog {
    var id: Guid
    var recipientId: Guid
    var emailTemplateId: Guid
    var subject: string
    var body: string
    var status: EmailStatus
    var attemptCount: int
    var maxAttempts: int
    var errorMessage: Option<string>
    var sentAt: Option<Time>
    var createdAt: Time
    var updatedAt: Time

    /** The object's current column values. */
    function Row(): EmailLogRow
      reads this
    {
      EmailLogRow(id, recipientId, emailTemplateId, subject, body, status,
                  attemptCount, maxAttempts, errorMessage, sentAt, createdAt, updatedAt)
    }

    /** `new EmailLog { RecipientId, EmailTemplateId, Subject, Body, Status = Pending }`. */
    constructor (recipientId: Guid, emailTemplateId: Guid, subject: string, body: string, now: Time)
      ensures Row() == NewLogRow(recipientId, emailTemplateId, subject, body, now)
    {
      this.id := EmptyGuid;
      this.recipientId := recipientId;
      this.emailTemplateId := emailTemplateId;
      this.subject := subject;
      this.body := body;
      this.status := Pending;
      this.attemptCount := 0;
      this.maxAttempts := DefaultMaxAttempts;
      this.errorMessage := None;
      this.sentAt := None;
      this.createdAt := now;
      this.updatedAt := now;
    }

    /** The object the store materialises for a row it holds. */
    constructor FromRow(r: EmailLogRow)
      ensures Row() == r
    {
      id, recipientId, emailTemplateId := r.id, r.recipientId, r.emailTemplateId;
      subject, body, status := r.subject, r.body, r.status;
      attemptCount, maxAttempts := r.attemptCount, r.maxAttempts;
      errorMessage, sentAt := r.errorMessage, r.sentAt;
      createdAt, updatedAt := r.createdAt, r.updatedAt;
    }

    method MarkAsDefinitiveFailure(message: string, now: Time)
      modifies this
      ensures Row() == WithDefinitiveFailure(old(Row()), message, now)
    {
      if attemptCount >= maxAttempts {
        status := Failed;
        errorMessage := Some(message);
        updatedAt := now;
      }
    }

    method IncrementAttempt(now: Time)
      modifies this
      ensures Row() == WithAttemptIncremented(old(Row()), now)
    {
      attemptCount := attemptCount + 1;
      updatedAt := now;
    }

    method MarkAsSent(now: Time)
      modifies this
      ensures Row() == WithSent(old(Row()), now)
    {
      status := Sent;
      sentAt := Some(now);
      updatedAt := now;
    }
  }
}
