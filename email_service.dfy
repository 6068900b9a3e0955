/** EmailService: turns a user event into a mail and hands it to the mail transport. */
module EmailServices {
  import opened Wrappers
  import opened JavaLang
  import opened UserEvents

  const WelcomeSubject: string := "Добро пожаловать!"
  const FarewellSubject: string := "Удаление аккаунта"
  const WelcomeTextPrefix: string := "Здравствуйте! Ваш аккаунт на сайте "
  const WelcomeTextSuffix: string := " был успешно создан."
  const FarewellText: string := "Здравствуйте! Ваш аккаунт был удалён."
  /** The message of the RuntimeException every failed send is wrapped in. */
  const SendFailureMessage: string := "Не удалось отправить email"

  /** `String.format("Здравствуйте! Ваш аккаунт на сайте %s был успешно создан.", siteName)` */
  function WelcomeText(siteName: string): string
  {
    WelcomeTextPrefix + siteName + WelcomeTextSuffix
  }

  /** getSubject: a switch over the event type; switching over null throws a NullPointerException. */
  function GetSubject(eventType: Option<EventType>): (r: Result<string, Exception>)
    ensures r.Failure? <==> eventType.None?
    ensures r.Failure? ==> r.error == NullPointerException
  {
    match eventType
    case None => Failure(NullPointerException)
    case Some(UserCreated) => Success(WelcomeSubject)
    case Some(UserDeleted) => Success(FarewellSubject)
  }

  /** getMessageText: the same switch, choosing the body. */
  function GetMessageText(siteName: string, eventType: Option<EventType>): (r: Result<string, Exception>)
    ensures r.Failure? <==> eventType.None?
    ensures r.Failure? ==> r.error == NullPointerException
  {
    match eventType
    case None => Failure(NullPointerException)
    case Some(UserCreated) => Success(WelcomeText(siteName))
    case Some(UserDeleted) => Success(FarewellText)
  }

  /** Different event types get different subjects. */
  lemma SubjectsTellTypesApart(a: EventType, b: EventType)
    ensures GetSubject(Some(a)) == GetSubject(Some(b)) <==> a == b
  {
    assert WelcomeSubject[0] != FarewellSubject[0];
  }

  /** Different event types get different bodies, whatever the site name. */
  lemma TextsTellTypesApart(siteName: string, a: EventType, b: EventType)
    ensures GetMessageText(siteName, Some(a)) == GetMessageText(siteName, Some(b)) <==> a == b
  {
    assert WelcomeText(siteName)[26] == WelcomeTextPrefix[26];
    assert WelcomeTextPrefix[26] != FarewellText[26];
  }

  /** Subject and body are chosen by the same event type: the welcome subject comes
      with the welcome body and the removal subject with the removal body. */
  lemma SubjectAndTextAgree(siteName: string, t: EventType)
    ensures GetSubject(Some(t)) == Success(WelcomeSubject) <==> GetMessageText(siteName, Some(t)) == Success(WelcomeText(siteName))
    ensures GetSubject(Some(t)) == Success(FarewellSubject) <==> GetMessageText(siteName, Some(t)) == Success(FarewellText)
  {
    assert WelcomeSubject[0] != FarewellSubject[0];
    assert WelcomeText(siteName)[26] != FarewellText[26];
  }

  /** The welcome body names the configured site, right after the fixed prefix. */
  lemma WelcomeTextNamesSite(siteName: string)
    ensures var r := GetMessageText(siteName, Some(UserCreated));
            r.Success? && |r.value| == |siteName| + 55 &&
            r.value[|WelcomeTextPrefix|..|WelcomeTextPrefix| + |siteName|] == siteName
  {
    var r := WelcomeText(siteName);
    assert |WelcomeTextPrefix| == 35 && |WelcomeTextSuffix| == 20;
    assert r[|WelcomeTextPrefix|..|WelcomeTextPrefix| + |siteName|] == siteName;
  }

  /** The removal body does not depend on the site name. */
  lemma FarewellTextIgnoresSite(site1: string, site2: string)
    ensures GetMessageText(site1, Some(UserDeleted)) == GetMessageText(site2, Some(UserDeleted))
  {
  }

  /** SimpleMailMessage as sendEmail fills it: the recipients (setTo(String)
      makes a one-element array), the subject and the text. */
  datatype MailMessage = MailMessage(to: seq<Option<string>>, subject: Option<string>, text: Option<string>)

  /** The message sendUserEventNotification composes for a non-null event type. */
  function Compose(siteName: string, email: Option<string>, eventType: EventType): (m: MailMessage)
    ensures m.to == [email]
    ensures m.subject.Some? && Success(m.subject.value) == GetSubject(Some(eventType))
    ensures m.text.Some? && Success(m.text.value) == GetMessageText(siteName, Some(eventType))
  {
    MailMessage([email], Some(GetSubject(Some(eventType)).value), Some(GetMessageText(siteName, Some(eventType)).value))
  }

  /** A side effect of the notification pipeline, recorded by the collaborator
      it reaches: a call of sendUserEventNotification with its arguments, or a
      call of acknowledge(). */
  datatype Step = Dispatched(email: Option<string>, eventType: Option<EventType>) | Acknowledged

  /** The record the email service and the acknowledgment handle share: every
      step either of them takes, in the order taken. */
  class Journal {
    ghost var steps: seq<Step>

    constructor()
      ensures steps == []
    {
      steps := [];
    }
  }

  /** JavaMailSender. The SMTP delivery itself is outside the model: the transport
      is configured to fail with a given message or to succeed, and keeps a ghost
      log of every message handed to it. */
  class JavaMailSender {
    const failure: Option<string>
    ghost var handed: seq<MailMessage>

    constructor(failure: Option<string>)
      ensures this.failure == failure && handed == []
    {
      this.failure := failure;
      handed := [];
    }

    /** send(message): the message is handed over; a configured failure is thrown as a MailException. */
    method Send(message: MailMessage) returns (thrown: Option<Exception>)
      modifies this`handed
      ensures handed == old(handed) + [message]
      ensures thrown == if failure.Some? then Some(MailException(failure.value)) else None
    {
      handed := handed + [message];
      thrown := if failure.Some? then Some(MailException(failure.value)) else None;
    }
  }

  /** A call of the transport that throws, wrapped as sendUserEventNotification wraps it. */
  function SendFailure(cause: Exception): Exception
  {
    RuntimeException(SendFailureMessage, cause)
  }

  class EmailService {
    const mailSender: JavaMailSender
    const siteName: string
    /** Where every call of sendUserEventNotification is recorded. */
    ghost const journal: Journal

    constructor(mailSender: JavaMailSender, siteName: string, ghost journal: Journal)
      ensures this.mailSender == mailSender && this.siteName == siteName && this.journal == journal
    {
      this.mailSender := mailSender;
      this.siteName := siteName;
      this.journal := journal;
    }

    /** sendUserEventNotification: returns None when it returns normally, or the
        exception it throws. A null event type fails in getSubject before the
        transport is reached; a transport failure is rethrown wrapped. Either
        way the caller sees a RuntimeException "Не удалось отправить email". */
    method SendUserEventNotification(email: Option<string>, eventType: Option<EventType>)
      returns (thrown: Option<Exception>)
      modifies journal`steps, mailSender`handed
      ensures journal.steps == old(journal.steps) + [Dispatched(email, eventType)]
      ensures eventType.None? ==> mailSender.handed == old(mailSender.handed)
      ensures eventType.Some? ==> mailSender.handed == old(mailSender.handed) + [Compose(siteName, email, eventType.value)]
      ensures thrown.None? <==> eventType.Some? && mailSender.failure.None?
      ensures thrown.Some? ==> thrown.value.RuntimeException? && thrown.value.message == SendFailureMessage
      ensures eventType.None? ==> thrown == Some(SendFailure(NullPointerException))
      ensures eventType.Some? && mailSender.failure.Some? ==>
                thrown == Some(SendFailure(MailException(mailSender.failure.value)))
    {
      journal.steps := journal.steps + [Dispatched(email, eventType)];
      var subject := GetSubject(eventType);
      if subject.Failure? {
        thrown := Some(SendFailure(subject.error));
        return;
      }
      var text := GetMessageText(siteName, eventType);
      var cause := SendEmail(email, subject.value, text.value);
      thrown := if cause.Some? then Some(SendFailure(cause.value)) else None;
    }

    /** sendEmail(to, subject, text): builds the message through its setters and hands it to the transport. */
    method SendEmail(to: Option<string>, subject: string, text: string) returns (thrown: Option<Exception>)
      modifies mailSender`handed
      ensures mailSender.handed == old(mailSender.handed) + [MailMessage([to], Some(subject), Some(text))]
      ensures thrown == if mailSender.failure.Some? then Some(MailException(mailSender.failure.value)) else None
    {
      var message := MailMessage([], None, None);
      message := message.(to := [to]);
      message := message.(subject := Some(subject));
      message := message.(text := Some(text));
      thrown := mailSender.Send(message);
    }
  }
}
