/** EmailResponseDto: the mutable bean the notification endpoint answers with. */
module EmailResponses {
  import opened Wrappers
  import opened JavaLang

  /** The bean's four properties at one moment. */
  datatype EmailResponse = EmailResponse(success: bool, message: Option<string>, email: Option<string>,
                                         timestamp: Option<LocalDateTime>)

  class EmailResponseDto {
    var success: bool
    var message: Option<string>
    var email: Option<string>
    var timestamp: Option<LocalDateTime>

    function View(): EmailResponse
      reads this
    {
      EmailResponse(success, message, email, timestamp)
    }

    /** The no-argument constructor: only the timestamp is set; `success` keeps Java's default false. */
    constructor Init(now: LocalDateTime)
      ensures View() == EmailResponse(false, None, None, Some(now))
    {
      success := false;
      message := None;
      email := None;
      timestamp := Some(now);
    }

    /** The three-argument constructor; note its order: success, message, email. */
    constructor (success: bool, message: Option<string>, email: Option<string>, now: LocalDateTime)
      ensures View() == EmailResponse(success, message, email, Some(now))
    {
      this.success := success;
      this.message := message;
      this.email := email;
      this.timestamp := Some(now);
    }

    /** EmailResponseDto.success(email, message) */
    static method Success(email: Option<string>, message: Option<string>, now: LocalDateTime)
      returns (r: EmailResponseDto)
      ensures fresh(r)
      ensures r.success && r.email == email && r.message == message && r.timestamp == Some(now)
    {
      r := new EmailResponseDto(true, message, email, now);
    }

    /** EmailResponseDto.error(email, message) */
    static method Error(email: Option<string>, message: Option<string>, now: LocalDateTime)
      returns (r: EmailResponseDto)
      ensures fresh(r)
      ensures !r.success && r.email == email && r.message == message && r.timestamp == Some(now)
    {
      r := new EmailResponseDto(false, message, email, now);
    }

    method SetSuccess(success: bool)
      modifies this
      ensures View() == old(View()).(success := success)
    {
      this.success := success;
    }

    method SetMessage(message: Option<string>)
      modifies this
      ensures View() == old(View()).(message := message)
    {
      this.message := message;
    }

    method SetEmail(email: Option<string>)
      modifies this
      ensures View() == old(View()).(email := email)
    {
      this.email := email;
    }

    method SetTimestamp(timestamp: Option<LocalDateTime>)
      modifies this
      ensures View() == old(View()).(timestamp := timestamp)
    {
      this.timestamp := timestamp;
    }
  }
}
