/** NotificationController: the synchronous HTTP entry point that sends a
    notification without going through Kafka, and the health probe. */
module NotificationControllers {
  import opened Wrappers
  import opened JavaLang
  import opened UserEvents
  import opened EmailServices
  import opened EmailResponses

  const HttpOk: int := 200
  const HttpInternalServerError: int := 500
  const SentText: string := "Email уведомление успешно отправлено"
  const FailureTextPrefix: string := "Не удалось отправить email: "
  const HealthText: string := "Notification Service is running"

  /** ResponseEntity: a status code and a body. */
  datatype ResponseEntity<T> = ResponseEntity(status: int, body: T)

  /** EmailRequestDto, as bound from the request body. */
  datatype EmailRequestDto = EmailRequestDto(email: Option<string>, eventType: Option<EventType>)

  /** What bean validation (@Valid) lets through to sendEmail: @NotBlank on the
      email and @NotNull on the event type. The @Email rule is not modelled. */
  predicate PassesValidation(request: EmailRequestDto)
  {
    request.email.Some? && !Blank(request.email.value) && request.eventType.Some?
  }

  /** health(): always 200 with the fixed liveness text. */
  function Health(): (r: ResponseEntity<string>)
    ensures r.status == HttpOk && r.body == HealthText
  {
    ResponseEntity(HttpOk, HealthText)
  }

  /** The response sendEmail builds for `email` once the email service has
      returned normally (`thrown` is None) or thrown. */
  function ResponseFor(email: string, thrown: Option<Exception>, now: LocalDateTime): (r: ResponseEntity<EmailResponse>)
    ensures r.status == HttpOk <==> thrown.None?
    ensures r.status == HttpInternalServerError <==> thrown.Some?
    ensures r.body.success <==> r.status == HttpOk
    ensures r.body.email == Some(email) && r.body.timestamp == Some(now)
    ensures thrown.None? ==> r.body.message == Some(SentText)
    ensures thrown.Some? ==> r.body.message == Some(FailureTextPrefix + ConcatText(GetMessage(thrown.value)))
  {
    if thrown.None? then
      ResponseEntity(HttpOk, EmailResponse(true, Some(SentText), Some(email), Some(now)))
    else
      ResponseEntity(HttpInternalServerError,
                     EmailResponse(false, Some(FailureTextPrefix + ConcatText(GetMessage(thrown.value))), Some(email), Some(now)))
  }

  /** Because the email service wraps every failure with the same message, the
      500 response always reads "Не удалось отправить email: Не удалось отправить
      email", whatever went wrong underneath. */
  lemma FailureTextIsFixed(email: string, cause: Exception, now: LocalDateTime)
    ensures ResponseFor(email, Some(SendFailure(cause)), now).body.message
            == Some(FailureTextPrefix + SendFailureMessage)
    ensures ResponseFor(email, Some(SendFailure(cause)), now).status == HttpInternalServerError
  {
  }

  class NotificationController {
    const emailService: EmailService

    constructor(emailService: EmailService)
      ensures this.emailService == emailService
    {
      this.emailService := emailService;
    }

    /** sendEmail: one call of the email service with the request's email and
        event type; a normal return becomes 200, a thrown exception 500, and in
        both cases the body echoes the email. Nothing is thrown past it. */
    method SendEmail(request: EmailRequestDto, now: LocalDateTime) returns (response: ResponseEntity<EmailResponseDto>)
      requires PassesValidation(request)
      modifies emailService.journal`steps, emailService.mailSender`handed
      ensures fresh(response.body)
      ensures emailService.journal.steps == old(emailService.journal.steps) + [Dispatched(request.email, request.eventType)]
      ensures emailService.mailSender.handed
              == old(emailService.mailSender.handed) + [Compose(emailService.siteName, request.email, request.eventType.value)]
      ensures var failure := emailService.mailSender.failure;
              var expected := ResponseFor(request.email.value,
                                          if failure.None? then None else Some(SendFailure(MailException(failure.value))),
                                          now);
              response.status == expected.status && response.body.View() == expected.body
    {
      var thrown := emailService.SendUserEventNotification(request.email, request.eventType);
      if thrown.None? {
        var body := EmailResponseDto.Success(request.email, Some(SentText), now);
        response := ResponseEntity(HttpOk, body);
      } else {
        var body := EmailResponseDto.Error(request.email, Some(FailureTextPrefix + ConcatText(GetMessage(thrown.value))), now);
        response := ResponseEntity(HttpInternalServerError, body);
      }
    }
  }
}
