/** UserEventKafkaConsumer: validates each event from the `user-events` topic,
    dispatches valid ones to the email service, and acknowledges every message. */
module KafkaConsumers {
  import opened Wrappers
  import opened JavaLang
  import opened UserEvents
  import opened EmailServices

  /** The four checks of validateUserEvent, in the order it makes them. */
  datatype Violation = NullEvent | BlankEmail | NullEventType | MalformedEmail(email: string)

  /** An event the consumer accepts: present, with a non-blank email that
      contains '@', and an event type. */
  predicate Acceptable(e: Option<UserEventDto>)
  {
    && e.Some?
    && !NullOrBlank(e.value.email)
    && e.value.eventType.Some?
    && ContainsAt(e.value.email.value)
  }

  /** validateUserEvent: None when every check passes, otherwise the first check that fails. */
  function ValidateUserEvent(e: Option<UserEventDto>): (r: Option<Violation>)
    ensures r.None? <==> Acceptable(e)
    ensures r == Some(NullEvent) <==> e.None?
    ensures r == Some(BlankEmail) <==> e.Some? && NullOrBlank(e.value.email)
    ensures r == Some(NullEventType) <==>
              e.Some? && !NullOrBlank(e.value.email) && e.value.eventType.None?
    ensures r.Some? && r.value.MalformedEmail? <==>
              e.Some? && !NullOrBlank(e.value.email) && e.value.eventType.Some? && !ContainsAt(e.value.email.value)
    ensures r.Some? && r.value.MalformedEmail? ==> r.value.email == e.value.email.value
  {
    if e.None? then Some(NullEvent)
    else if NullOrTrimEmpty(e.value.email) then Some(BlankEmail)
    else if e.value.eventType.None? then Some(NullEventType)
    else if !ContainsAt(e.value.email.value) then Some(MalformedEmail(e.value.email.value))
    else None
  }

  /** What one call of handleUserEvent came to. Every outcome is acknowledged. */
  datatype ConsumeOutcome = Delivered | ValidationFailed(violation: Violation) | DeliveryFailed(error: Exception)

  /** The outcome handleUserEvent reaches for event `e` when the mail transport
      is configured with `transportFailure`. */
  function ExpectedOutcome(e: Option<UserEventDto>, transportFailure: Option<string>): ConsumeOutcome
  {
    var v := ValidateUserEvent(e);
    if v.Some? then ValidationFailed(v.value)
    else if transportFailure.None? then Delivered
    else DeliveryFailed(SendFailure(MailException(transportFailure.value)))
  }

  /** An event is turned away exactly when it is not acceptable, and delivered
      exactly when it is acceptable and the transport works. A delivery failure
      always carries the email service's wrapped error. */
  lemma OutcomeClassification(e: Option<UserEventDto>, transportFailure: Option<string>)
    ensures ExpectedOutcome(e, transportFailure).ValidationFailed? <==> !Acceptable(e)
    ensures ExpectedOutcome(e, transportFailure) == Delivered <==> Acceptable(e) && transportFailure.None?
    ensures ExpectedOutcome(e, transportFailure).DeliveryFailed? <==> Acceptable(e) && transportFailure.Some?
    ensures ExpectedOutcome(e, transportFailure).DeliveryFailed? ==>
              GetMessage(ExpectedOutcome(e, transportFailure).error) == Some(SendFailureMessage)
  {
  }

  /** The steps handleUserEvent takes for event `e`: the email service is
      called with the event's email as received and its event type. */
  function ExpectedSteps(e: Option<UserEventDto>): seq<Step>
  {
    if Acceptable(e) then [Dispatched(e.value.email, e.value.eventType), Acknowledged]
    else [Acknowledged]
  }

  /** How many acknowledgments a journal records. */
  function AckCount(steps: seq<Step>): nat
  {
    if steps == [] then 0 else (if steps[0] == Acknowledged then 1 else 0) + AckCount(steps[1..])
  }

  /** Acknowledgments add up over consecutive stretches of a journal. */
  lemma {:induction false} AckCountAppend(a: seq<Step>, b: seq<Step>)
    ensures AckCount(a + b) == AckCount(a) + AckCount(b)
    decreases |a|
  {
    if a == [] {
      assert a + b == b;
    } else {
      assert (a + b)[0] == a[0];
      assert (a + b)[1..] == a[1..] + b;
      AckCountAppend(a[1..], b);
    }
  }

  /** Every message ends with exactly one acknowledgment, and the acknowledgment
      is its last step: a dispatch, when there is one, comes before it. */
  lemma ExactlyOneAckAtTheEnd(e: Option<UserEventDto>)
    ensures AckCount(ExpectedSteps(e)) == 1
    ensures ExpectedSteps(e)[|ExpectedSteps(e)| - 1] == Acknowledged
    ensures forall i :: 0 <= i < |ExpectedSteps(e)| - 1 ==> ExpectedSteps(e)[i].Dispatched?
  {
    var s := ExpectedSteps(e);
    if Acceptable(e) {
      assert s[1..] == [Acknowledged] && [Acknowledged][1..] == [];
    } else {
      assert s[1..] == [];
    }
  }

  /** The Acknowledgment handle. acknowledge() is assumed never to fail; each
      call is recorded in the journal it shares with the email service. */
  class Acknowledgment {
    ghost const journal: Journal

    constructor(ghost journal: Journal)
      ensures this.journal == journal
    {
      this.journal := journal;
    }

    method Acknowledge()
      modifies journal`steps
      ensures journal.steps == old(journal.steps) + [Acknowledged]
    {
      journal.steps := journal.steps + [Acknowledged];
    }
  }

  class UserEventKafkaConsumer {
    const emailService: EmailService

    constructor(emailService: EmailService)
      ensures this.emailService == emailService
    {
      this.emailService := emailService;
    }

    /** handleUserEvent. Topic, partition and offset are only logged. An invalid
        event is never dispatched; a valid one is dispatched once, with its email
        as received (untrimmed) and its event type; whatever happens, the message
        is acknowledged exactly once and nothing is thrown. */
    method HandleUserEvent(userEvent: Option<UserEventDto>, topic: string, partition: int, offset: int,
                           acknowledgment: Acknowledgment)
      returns (outcome: ConsumeOutcome)
      requires acknowledgment.journal == emailService.journal
      modifies emailService.journal`steps, emailService.mailSender`handed
      ensures emailService.journal.steps == old(emailService.journal.steps) + ExpectedSteps(userEvent)
      ensures AckCount(emailService.journal.steps) == AckCount(old(emailService.journal.steps)) + 1
      ensures outcome == ExpectedOutcome(userEvent, emailService.mailSender.failure)
      ensures !Acceptable(userEvent) ==> emailService.mailSender.handed == old(emailService.mailSender.handed)
      ensures Acceptable(userEvent) ==>
                emailService.mailSender.handed == old(emailService.mailSender.handed)
                  + [Compose(emailService.siteName, userEvent.value.email, userEvent.value.eventType.value)]
    {
      ghost var journal0 := emailService.journal.steps;
      ExactlyOneAckAtTheEnd(userEvent);
      AckCountAppend(journal0, ExpectedSteps(userEvent));
      var violation := ValidateUserEvent(userEvent);
      OutcomeClassification(userEvent, emailService.mailSender.failure);
      if violation.Some? {
        // validateUserEvent threw: the catch block acknowledges
        assert ExpectedSteps(userEvent) == [Acknowledged];
        acknowledgment.Acknowledge();
        outcome := ValidationFailed(violation.value);
        return;
      }
      var event := userEvent.value;
      assert ExpectedSteps(userEvent) == [Dispatched(event.email, event.eventType), Acknowledged];
      var thrown := emailService.SendUserEventNotification(event.email, event.eventType);
      if thrown.None? {
        acknowledgment.Acknowledge();
        outcome := Delivered;
      } else {
        // the email service threw: the catch block acknowledges
        acknowledgment.Acknowledge();
        outcome := DeliveryFailed(thrown.value);
      }
    }
  }
}
