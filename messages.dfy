/** The records that cross component boundaries: queue messages, settings and request/response shapes. */
module Messages {
  import opened Common
  import opened TemplateVariables

  /** `EmailQueueMessage`: one delivery job as it travels through the broker. */
  datatype EmailQueueMessage = EmailQueueMessage(
    emailLogId: Guid,
    recipientId: Guid,
    emailTemplateId: Guid,
    recipientEmail: string,
    recipientName: string,
    subject: string,
    body: string,
    pdfPath: Option<string>,
    variables: Variables,
    attemptCount: int,
    createdAt: Time)

  /** The part of `RabbitMqSettings` the pipeline's decisions depend on. */
  datatype RabbitMqSettings = RabbitMqSettings(
    durable: bool,
    maxRetryAttempts: int,
    retryDelayInSeconds: int)

  const DefaultSettings: RabbitMqSettings := RabbitMqSettings(true, 3, 60)

  /** `SendEmailRequestDto`. */
  datatype SendEmailRequest = SendEmailRequest(
    emailTemplateId: Guid,
    recipientIds: seq<Guid>,
    pdfFileName: Option<string>,
    additionalVariables: Variables)

  /** `SendEmailResponseDto`. */
  datatype SendEmailResponse = SendEmailResponse(
    success: bool,
    message: string,
    processedEmailLogIds: seq<Guid>)

  /** The arguments of one call to the mail transport (`IEmailService.SendEmailAsync`). */
  datatype MailRequest = MailRequest(
    toEmail: string,
    toName: string,
    subject: string,
    body: string,
    attachmentPath: Option<string>)

  /** `CreateEmailTemplateDto`. */
  datatype CreateEmailTemplateDto = CreateEmailTemplateDto(name: string, subject: string, body: string)

  /** `UpdateEmailTemplateDto`. */
  datatype UpdateEmailTemplateDto = UpdateEmailTemplateDto(id: Guid, name: string, subject: string, body: string, isActive: bool)

  /** `CreateRecipientDto`. */
  datatype CreateRecipientDto = CreateRecipientDto(name: string, email: string, cdc: string, isActive: bool)

  /** `UpdateRecipientDto`. */
  datatype UpdateRecipientDto = UpdateRecipientDto(id: Guid, name: string, email: string, cdc: string, isActive: bool)

  /** The exceptions the command handlers throw to their caller. */
  datatype HandlerError =
    | InvalidOperation(message: string)   // InvalidOperationException
    | NotFoundArgument(message: string)   // ArgumentException

  datatype Result<T> = Success(value: T) | Failure(error: HandlerError)
}
