# Notification service and user service, modelled in Dafny

This project models the decision logic of the notification service and the rules of the user service.

The notification service has three parts:

- **UserEventKafkaConsumer** reads user events from the `user-events` topic. It validates each event with four ordered checks. It hands valid events to the email service. It acknowledges every message exactly once, whatever happens.
- **EmailService** maps the two event types to a subject and a body. It builds the mail and hands it to the mail transport. It wraps any failure into a single `RuntimeException("Не удалось отправить email")`.
- **NotificationController** is the synchronous HTTP entry point. It answers 200 or 500 with an `EmailResponseDto`. It also has a fixed health probe.

The value types are modelled too:

- `UserEventDto`: the timestamp defaults to now, and `equals`/`hashCode` are defined over all three fields.
- `EmailResponseDto`: the factories, the constructors and the setters.

The user service (`UserServiceImpl`) creates, reads, updates and deletes users. It works in front of a DAO, modelled as a table from id to user.

## Modules

| file | module | models |
|---|---|---|
| `wrappers.dfy` | `Wrappers` | `Option` (Java null) and `Result` (a value or a thrown exception) |
| `java_lang.dfy` | `JavaLang` | `String.trim().isEmpty()`, 32-bit `int` wrap-around, `String.hashCode`, `Objects.hash`, decimal rendering of a `long`, the exceptions involved |
| `user_event_dto.dfy` | `UserEvents` | `UserEventDto` and `EventType` |
| `email_response_dto.dfy` | `EmailResponses` | `EmailResponseDto` as a class with four mutable fields |
| `email_service.dfy` | `EmailServices` | subject and body templates, `SimpleMailMessage`, the mail transport, `EmailService` |
| `user_event_kafka_consumer.dfy` | `KafkaConsumers` | `validateUserEvent`, `handleUserEvent`, the acknowledgment handle |
| `notification_controller.dfy` | `NotificationControllers` | `sendEmail` and `health` |
| `user_service_impl.dfy` | `UserServices` | `UserServiceImpl` over a `UserDao` class holding a `map<int, User>` |

Modelling choices:

- **Null.** Java `null` is `None`. A thrown exception that the code catches becomes a value: a `Result`, or an `Option<Exception>` for `void` methods. The `catch` blocks become branches.
- **Blank strings.** Java's `trim()` removes every leading and trailing character at or below `' '`. So `trim().isEmpty()` means "every character is at most `' '`". `JavaLang.Blank` states that, and `JavaLang.TrimEmptyIffBlank` proves that `Trim` agrees with it. The code paths use `Trim` as the Java code does.
- **Collaborators.** The mail transport (`JavaMailSender`), the acknowledgment handle and the DAO are small classes. The transport is built with a fixed outcome: `failure == None` means every send works, and `Some(msg)` means every send throws `MailException(msg)`. Each collaborator records what was done to it in a ghost log: the transport logs the messages handed to it, and the DAO logs the calls made on it. The email service and the acknowledgment handle share one ghost `Journal`. Each records its own calls there from inside its own method: `Dispatched(email, eventType)` for a call of `sendUserEventNotification`, `Acknowledged` for a call of `acknowledge()`. So the journal shows the order in which the consumer reached them.
- **Time.** `LocalDateTime.now()` is a parameter `now`.
- **handleUserEvent's result.** Java's `handleUserEvent` returns `void`. The model returns the `ConsumeOutcome` it reached, which is one of Delivered, ValidationFailed or DeliveryFailed.
- **Specification functions.** `createUser` and `updateUser` are each specified by a pure function (`CreateEffect`, `UpdateEffect`). The function gives the result, the table afterwards, and the DAO calls made, in order. The two methods are proved equal to these functions, and the lemmas about the functions carry the properties. The other operations (`getUserById`, `getUserByEmail`, `deleteUser`) state their effect directly in their own contracts.

## Model

| member | source | states |
|---|---|---|
| JavaLang.TrimEmptyIffBlank | src/main/java/service/kafka/UserEventKafkaConsumer.java:80 | `trim()` of a string is empty exactly when every character is at most `' '` |
| JavaLang.NullOrTrimEmpty | src/main/java/service/impl/UserServiceImpl.java:27 | `s == null \|\| s.trim().isEmpty()` holds exactly when the string is null or blank |
| JavaLang.WrapInt32 | src/main/java/service/dto/UserEventDto.java:52 | the result is a 32-bit int congruent to the input modulo 2^32, and int values are left as they are |
| JavaLang.HashFoldClosedForm | src/main/java/service/dto/UserEventDto.java:51-53 | the `31 * h + x` accumulation on `int` equals the polynomial `h*31^n + x0*31^(n-1) + ... + x(n-1)`, wrapped to 32 bits |
| JavaLang.StringHashIsPolynomial | src/main/java/service/dto/UserEventDto.java:52 | `String.hashCode` equals its documented formula `s[0]*31^(n-1) + ... + s[n-1]`, wrapped to int |
| JavaLang.LongToString | src/main/java/service/impl/UserServiceImpl.java:68 | the rendering of the id in the not-found message is non-empty and starts with `-` exactly for negative ids |
| JavaLang.LongToStringIsDecimal | src/main/java/service/impl/UserServiceImpl.java:68 | the rendering of the id is its canonical decimal form: read back it gives the id, it is digits after an optional minus sign, and it has no leading zero except in "0" |
| UserEvents.EventTypeValues | src/main/java/service/dto/UserEventDto.java:64-67 | `EventType` has exactly two distinct values, and every event type is one of them |
| UserEvents.NewUserEventDto | src/main/java/service/dto/UserEventDto.java:19-26 | email and event type are stored as given; a null timestamp becomes `now`, and a non-null one is kept |
| UserEvents.Equals | src/main/java/service/dto/UserEventDto.java:41-48 | `equals` holds exactly when the other object is an event with the same email, event type and timestamp |
| UserEvents.EqualsIsEquivalence | src/main/java/service/dto/UserEventDto.java:41-48 | `equals` is reflexive, symmetric and transitive, and false against null |
| UserEvents.HashCode | src/main/java/service/dto/UserEventDto.java:51-53 | `hashCode` is always a 32-bit int |
| UserEvents.EqualEventsHashEqually | src/main/java/service/dto/UserEventDto.java:41-53 | equal events have equal hash codes |
| UserEvents.HashCodeClosedForm | src/main/java/service/dto/UserEventDto.java:51-53 | `Objects.hash(email, eventType, timestamp)` is `31^3 + 31^2*h(email) + 31*h(eventType) + h(timestamp)`, wrapped to int |
| EmailResponses.EmailResponseDto.Init | src/main/java/service/dto/EmailResponseDto.java:15-17 | the no-argument constructor sets only the timestamp; `success` is false, message and email are null |
| EmailResponses.EmailResponseDto.constructor | src/main/java/service/dto/EmailResponseDto.java:19-24 | the three-argument constructor stores success, message and email in that order, with timestamp `now` |
| EmailResponses.EmailResponseDto.Success | src/main/java/service/dto/EmailResponseDto.java:26-28 | `success(email, message)` is a new response with success true and the email and message unswapped |
| EmailResponses.EmailResponseDto.Error | src/main/java/service/dto/EmailResponseDto.java:30-32 | `error(email, message)` is a new response with success false and the email and message unswapped |
| EmailResponses.EmailResponseDto.SetSuccess | src/main/java/service/dto/EmailResponseDto.java:38-40 | changes `success` and no other field |
| EmailResponses.EmailResponseDto.SetMessage | src/main/java/service/dto/EmailResponseDto.java:46-48 | changes `message` and no other field |
| EmailResponses.EmailResponseDto.SetEmail | src/main/java/service/dto/EmailResponseDto.java:54-56 | changes `email` and no other field |
| EmailResponses.EmailResponseDto.SetTimestamp | src/main/java/service/dto/EmailResponseDto.java:62-64 | changes `timestamp` and no other field |
| EmailServices.GetSubject | src/main/java/service/EmailService.java:59-64 | the subject switch fails (NullPointerException) exactly on a null event type |
| EmailServices.GetMessageText | src/main/java/service/EmailService.java:69-75 | the body switch fails (NullPointerException) exactly on a null event type |
| EmailServices.SubjectsTellTypesApart | src/main/java/service/EmailService.java:59-64 | two event types get the same subject only if they are the same type |
| EmailServices.TextsTellTypesApart | src/main/java/service/EmailService.java:69-75 | two event types get the same body only if they are the same type, whatever the site name |
| EmailServices.SubjectAndTextAgree | src/main/java/service/EmailService.java:59-75 | the welcome subject comes exactly with the welcome body, and the removal subject exactly with the removal body |
| EmailServices.WelcomeTextNamesSite | src/main/java/service/EmailService.java:71-72 | the USER_CREATED body contains the configured site name right after the fixed prefix, and has 55 characters besides it |
| EmailServices.FarewellTextIgnoresSite | src/main/java/service/EmailService.java:73 | the USER_DELETED body does not depend on the site name |
| EmailServices.Compose | src/main/java/service/EmailService.java:47-53 | the mail is addressed to the given email alone and carries the subject and body of the event type |
| EmailServices.EmailService.SendEmail | src/main/java/service/EmailService.java:47-54 | exactly one message is handed to the transport, and the transport's failure is passed on |
| EmailServices.EmailService.constructor | src/main/java/service/EmailService.java:22-26 | keeps the transport and the site name it is given |
| EmailServices.EmailService.SendUserEventNotification | src/main/java/service/EmailService.java:29-42 | the call is recorded in the journal with its email and event type; a null event type fails before the transport is reached; otherwise one message goes out; every failure comes out as a RuntimeException with message "Не удалось отправить email" wrapping the cause |
| KafkaConsumers.ValidateUserEvent | src/main/java/service/kafka/UserEventKafkaConsumer.java:75-92 | the four checks in order: null event, null or blank email, null event type, email without `@`; none fails exactly for an acceptable event |
| KafkaConsumers.OutcomeClassification | src/main/java/service/kafka/UserEventKafkaConsumer.java:46-69 | validation fails exactly for unacceptable events; delivery succeeds exactly for acceptable events when the transport works; a delivery failure carries the email service's wrapped error |
| KafkaConsumers.ExactlyOneAckAtTheEnd | src/main/java/service/kafka/UserEventKafkaConsumer.java:46-69 | the steps of one message hold exactly one acknowledgment, and it is the last step, after the dispatch when there is one |
| KafkaConsumers.AckCountAppend | src/main/java/service/kafka/UserEventKafkaConsumer.java:46-69 | the acknowledgments in a journal are the sum of those in its parts, so one message adds exactly one |
| KafkaConsumers.UserEventKafkaConsumer.constructor | src/main/java/service/kafka/UserEventKafkaConsumer.java:24-26 | keeps the email service it is given |
| KafkaConsumers.UserEventKafkaConsumer.HandleUserEvent | src/main/java/service/kafka/UserEventKafkaConsumer.java:36-70 | throws nothing and returns the outcome `ExpectedOutcome` gives; the shared journal grows by exactly the steps of `ExpectedSteps`: an unacceptable event gets one acknowledgment and no dispatch; an acceptable one gets one call of the email service, with its untrimmed email and its event type, followed by one acknowledgment |
| NotificationControllers.Health | src/main/java/controller/NotificationController.java:62-65 | always status 200 with "Notification Service is running" |
| NotificationControllers.ResponseFor | src/main/java/controller/NotificationController.java:35-56 | 200 with success and the sent text exactly when nothing was thrown; 500 with failure and "Не удалось отправить email: " plus the cause's message otherwise; the email is echoed in both |
| NotificationControllers.FailureTextIsFixed | src/main/java/controller/NotificationController.java:46-55 | behind the email service, the 500 message is always "Не удалось отправить email: Не удалось отправить email" |
| NotificationControllers.NotificationController.constructor | src/main/java/controller/NotificationController.java:24-26 | keeps the email service it is given |
| NotificationControllers.NotificationController.SendEmail | src/main/java/controller/NotificationController.java:32-57 | calls the email service once with the request's email and event type, and returns the response `ResponseFor` describes for what the service did |
| UserServices.ApplyUpdateFields | src/main/java/service/impl/UserServiceImpl.java:73-87 | the name changes only to a non-blank name, the email only to a non-blank email, the age only to a non-null age; the id never changes |
| UserServices.ApplyUpdateIdempotent | src/main/java/service/impl/UserServiceImpl.java:73-87 | an update that asks for nothing changes nothing, and applying the same update twice is the same as applying it once |
| UserServices.InsertKeepsEmailsUnique | src/main/java/service/impl/UserServiceImpl.java:35-41 | saving a user whose email nobody holds keeps emails unique |
| UserServices.UpdateKeepsEmailsUnique | src/main/java/service/impl/UserServiceImpl.java:77-89 | writing back an update keeps emails unique unless it takes an email someone holds |
| UserServices.UnknownIdMessageNamesId | src/main/java/service/impl/UserServiceImpl.java:68 | the not-found message names the id: two ids give the same message exactly when they are the same id |
| UserServices.CreateRefusals | src/main/java/service/impl/UserServiceImpl.java:27-38 | a blank name or email is refused before any DAO call, the name checked first; each refusal is an `IllegalArgumentException` with "User name cannot be empty", "User email cannot be empty" or "User with email ... already exists"; creation succeeds exactly when both are non-blank and the email is free; a refusal saves nothing and leaves the table alone |
| UserServices.CreateAdditions | src/main/java/service/impl/UserServiceImpl.java:40-41 | an accepted creation stores exactly the returned user, with the given name, email and age, under a fresh id; every other stored user is unchanged |
| UserServices.CreateKeepsInvariant | src/main/java/service/impl/UserServiceImpl.java:24-42 | createUser keeps ids consistent, emails unique and stored names and emails non-blank |
| UserServices.UpdateOutcomes | src/main/java/service/impl/UserServiceImpl.java:66-89 | an update succeeds exactly when the id is stored and the update does not take a held email; an unknown id is refused with `IllegalArgumentException("User with id <id> not found")` and a held email with "User with email ... already exists"; a refusal never reaches `update` and leaves the table alone; a success replaces only that user and keeps its id |
| UserServices.UpdateKeepsInvariant | src/main/java/service/impl/UserServiceImpl.java:63-90 | updateUser keeps ids consistent, emails unique and stored names and emails non-blank |
| UserServices.UserDao.Save | src/main/java/dao/impl/UserDaoImpl.java:26-41 | the user is stored under the next id, which was free, and returned with that id |
| UserServices.UserDao.FindById | src/main/java/dao/impl/UserDaoImpl.java:44-53 | the user under that id, or empty |
| UserServices.UserDao.FindByEmail | src/main/java/dao/impl/UserDaoImpl.java:132-146 | a stored user with that email, or null exactly when nobody holds it |
| UserServices.UserDao.Update | src/main/java/dao/impl/UserDaoImpl.java:73-88 | the user replaces the stored user with its id |
| UserServices.UserDao.DeleteById | src/main/java/dao/impl/UserDaoImpl.java:108-121 | true exactly when a user with that id existed; it is removed |
| UserServices.UserServiceImpl.constructor | src/main/java/service/impl/UserServiceImpl.java:19-21 | the service takes over a DAO whose table already keeps the service invariant, whatever users it holds |
| UserServices.UserServiceImpl.CreateUser | src/main/java/service/impl/UserServiceImpl.java:24-42 | result, table and DAO calls are those of `CreateEffect`, and the service invariant is kept |
| UserServices.UserServiceImpl.GetUserById | src/main/java/service/impl/UserServiceImpl.java:45-48 | the user stored under the id, whose id is that id, or empty |
| UserServices.UserServiceImpl.GetUserByEmail | src/main/java/service/impl/UserServiceImpl.java:51-54 | null exactly when nobody holds the email, otherwise the one user who holds it |
| UserServices.UserServiceImpl.UpdateUser | src/main/java/service/impl/UserServiceImpl.java:63-90 | result, table and DAO calls are those of `UpdateEffect`, and the service invariant is kept |
| UserServices.UserServiceImpl.DeleteUser | src/main/java/service/impl/UserServiceImpl.java:93-96 | returns what `deleteById` reports: true exactly when the user existed; the user is then gone and nothing else in the table or the id counter changes |

## Left out

- Console I/O (`App`, `ConsoleUI`, `ConsoleRunner`), logging, Hibernate sessions and transactions, Kafka and Spring wiring, and Jackson deserialization are not modelled. They are framework or I/O code.
- `models.User` is not part of this model. A user is a value with an optional id, name, email and age. Its setters become field updates of that value.
- The user service's methods require the table to keep the service invariant: ids match their keys, emails are unique, and every stored name and email is non-blank. That holds of a table written only through this service, and the model assumes it. Java's `createUser` and `updateUser` also run over a table that breaks it, for example one holding a blank-named user written by other code. The model does not cover that case.
- The DAO is a table from id to user. Ids come from a counter starting at 1, standing in for the database's generator.
- `UserServices.UserDao.FindByEmail`: Hibernate's `uniqueResult` throws when two rows match. The service invariant (unique emails) excludes that case, so it is not modelled.
- `UserServices.UserDao.Save`, `UserServices.UserDao.Update`, `UserServices.UserDao.DeleteById`: the `RuntimeException`s they raise when the database fails are not modelled. The table is assumed to work.
- `getAllUsers` / `findAll` is not modelled: the order of the list belongs to the database.
- Ids are `int`, never null. A null `Long` id is not modelled.
- `UserEvents.HashCode`: the hash codes of an enum constant (identity-based) and of a `LocalDateTime` are not visible. They are parameters, so the contract is stated for any such hash.
- `JavaLang.StringHashIsPolynomial`: a Dafny `char` is a Unicode scalar value, while Java hashes UTF-16 code units. The two agree for characters in the Basic Multilingual Plane only.
- `NotificationControllers.NotificationController.SendEmail`: bean validation is its precondition, covering only `@NotBlank` on the email and `@NotNull` on the event type. The `@Email` rule of Hibernate Validator is not visible and is not modelled.
- `KafkaConsumers.UserEventKafkaConsumer.HandleUserEvent`: `acknowledge()` is assumed never to fail. Redelivery, offsets, partitions and consumer concurrency belong to the broker and are not modelled. The topic, partition and offset are only logged.
- `EmailServices.EmailService.SendUserEventNotification`: the mail transport's outcome is fixed when the transport is built. It cannot vary from one send to the next.
- No event producer is modelled: none appears in the source.
- The user-service unit test expects a Russian duplicate-email message, but `UserServiceImpl` throws "User with email ... already exists". The model follows the code.
- The messages of the `IllegalArgumentException`s that `validateUserEvent` throws are not modelled: `handleUserEvent` catches them and only logs them. The outcome names the check that failed instead.
- `UserEvents.Equals`: Java's `equals(Object)` also returns false for an object of another class, including a subclass with equal fields. Other classes are not modelled: the argument is a `UserEventDto` or null.
- `toString` of the DTOs is not modelled: it is used only for logging.
