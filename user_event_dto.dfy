/** UserEventDto: the immutable event that travels over the `user-events` topic. */
module UserEvents {
  import opened Wrappers
  import opened JavaLang

  /** UserEventDto.EventType */
  datatype EventType = UserCreated | UserDeleted

  /** EventType.values(): both constants, each once. */
  function EventTypeValues(): (r: seq<EventType>)
    ensures |r| == 2 && r[0] != r[1]
    ensures forall t: EventType :: t in r
  {
    var r := [UserCreated, UserDeleted];
    forall t: EventType ensures t in r {
      if t.UserCreated? { assert r[0] == t; } else { assert r[1] == t; }
    }
    r
  }

  /** The three final fields. A datatype value cannot be changed after it is
      built, which is what the final fields promise. Email and event type may be
      null; the timestamp never is once the constructor has run. */
  datatype UserEventDto = UserEventDto(email: Option<string>, eventType: Option<EventType>, timestamp: LocalDateTime)

  /** The constructor: email and event type are stored as given, with no trimming
      or checking; a null timestamp is replaced by the clock reading `now`. */
  function NewUserEventDto(email: Option<string>, eventType: Option<EventType>,
                           timestamp: Option<LocalDateTime>, now: LocalDateTime): (e: UserEventDto)
    ensures e.email == email && e.eventType == eventType
    ensures timestamp.Some? ==> e.timestamp == timestamp.value
    ensures timestamp.None? ==> e.timestamp == now
  {
    UserEventDto(email, eventType, if timestamp != None then timestamp.value else now)
  }

  /** UserEventDto.equals(o): `o` is null (None) or another event. Holds exactly
      when `o` is an event equal to `e` in all three fields. */
  function Equals(e: UserEventDto, o: Option<UserEventDto>): (r: bool)
    ensures r <==> o == Some(e)
  {
    o.Some? && e.email == o.value.email && e.eventType == o.value.eventType && e.timestamp == o.value.timestamp
  }

  /** equals is reflexive, symmetric and transitive, and false against null. */
  lemma EqualsIsEquivalence(a: UserEventDto, b: UserEventDto, c: UserEventDto)
    ensures Equals(a, Some(a))
    ensures !Equals(a, None)
    ensures Equals(a, Some(b)) <==> Equals(b, Some(a))
    ensures Equals(a, Some(b)) && Equals(b, Some(c)) ==> Equals(a, Some(c))
  {
  }

  /** UserEventDto.hashCode, i.e. Objects.hash(email, eventType, timestamp).
      The hash of an enum constant (an identity hash) and of a LocalDateTime are
      not part of this model: they are passed in as `typeHash` and `timeHash`. */
  function HashCode(e: UserEventDto, typeHash: EventType -> int, timeHash: LocalDateTime -> int): (r: int)
    ensures IsInt32(r)
  {
    HashFold(1, [NullableStringHash(e.email),
                 if e.eventType.None? then 0 else typeHash(e.eventType.value),
                 timeHash(e.timestamp)])
  }

  /** Events that are equal hash equally, whatever the component hashes are.
      Equals coincides with equality of the datatype values, so this holds of
      any function of an event; it says only that hashCode reads nothing but
      the three fields equals compares. */
  lemma EqualEventsHashEqually(a: UserEventDto, b: UserEventDto,
                               typeHash: EventType -> int, timeHash: LocalDateTime -> int)
    requires Equals(a, Some(b))
    ensures HashCode(a, typeHash, timeHash) == HashCode(b, typeHash, timeHash)
  {
  }

  /** Objects.hash of three fields is 31^3 + 31^2*h(email) + 31*h(eventType) + h(timestamp), wrapped to int. */
  lemma HashCodeClosedForm(e: UserEventDto, typeHash: EventType -> int, timeHash: LocalDateTime -> int)
    ensures var h1 := NullableStringHash(e.email);
            var h2 := if e.eventType.None? then 0 else typeHash(e.eventType.value);
            var h3 := timeHash(e.timestamp);
            HashCode(e, typeHash, timeHash) == WrapInt32(29791 + 961 * h1 + 31 * h2 + h3)
  {
    var h1 := NullableStringHash(e.email);
    var h2 := if e.eventType.None? then 0 else typeHash(e.eventType.value);
    var h3 := timeHash(e.timestamp);
    var xs := [h1, h2, h3];
    HashFoldClosedForm(1, xs);
    assert xs[1..] == [h2, h3] && xs[1..][1..] == [h3] && [h3][1..] == [];
    assert Pow31(1) == 31 && Pow31(2) == 961 && Pow31(3) == 29791;
    assert PolySum([h3]) == h3;
    assert PolySum([h2, h3]) == 31 * h2 + h3;
    assert PolySum(xs) == 961 * h1 + 31 * h2 + h3;
  }
}
