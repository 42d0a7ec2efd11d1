/** The rows the scheduler stores. Times of day are minutes after local
    midnight, instants are absolute minutes (day number * 1440 + minute of
    day), dates are day numbers, timezones are opaque strings. */
module Entities {
  import opened Common

  /** A weekly availability rule: on `dayOfWeek` (0 = Sunday) the host works
      from `startTime` to `endTime`, both minutes after midnight. */
  datatype Rule = Rule(dayOfWeek: int, startTime: int, endTime: int)

  /** The same rule as the admin pages and the API carry it: times as "HH:MM" text. */
  datatype RuleText = RuleText(dayOfWeek: int, startTime: string, endTime: string)

  /** A per-date exception of one schedule; a missing time is the database's null. */
  datatype DateOverride = DateOverride(
    id: nat,
    scheduleId: nat,
    date: int,
    isBlocked: bool,
    startTime: Option<int>,
    endTime: Option<int>)

  datatype Schedule = Schedule(
    id: nat,
    userId: nat,
    name: string,
    timezone: string,
    isDefault: bool,
    rules: seq<Rule>)

  /** A booking question as stored: its position in the form is `order`,
      its options are an opaque list (serialised by the database layer). */
  datatype StoredQuestion = StoredQuestion(
    question: string,
    questionType: string,
    isRequired: bool,
    options: Option<seq<string>>,
    order: nat)

  datatype EventType = EventType(
    id: nat,
    userId: nat,
    title: string,
    description: Option<string>,
    slug: string,
    duration: int,
    bufferTimeBefore: int,
    bufferTimeAfter: int,
    color: string,
    isActive: bool,
    scheduleId: Option<nat>,
    questions: seq<StoredQuestion>)

  datatype Status = Confirmed | Cancelled | Rescheduled

  datatype Answer = Answer(questionId: nat, answer: string)

  datatype Booking = Booking(
    id: nat,
    eventTypeId: nat,
    userId: nat,
    bookerName: string,
    bookerEmail: string,
    startTime: int,
    endTime: int,
    timezone: string,
    status: Status,
    rescheduledFromId: Option<nat>,
    cancellationReason: Option<string>,
    answers: seq<Answer>)

  /** The event type with the given id (ids are unique in the table). */
  function EventTypeById(ets: seq<EventType>, id: nat): (r: Option<EventType>)
    ensures r.Some? ==> r.value in ets && r.value.id == id
    ensures r.None? <==> forall e :: e in ets ==> e.id != id
  {
    Find(ets, (e: EventType) => e.id == id)
  }

  /** The event type published under the given slug (slugs are unique). */
  function EventTypeBySlug(ets: seq<EventType>, slug: string): (r: Option<EventType>)
    ensures r.Some? ==> r.value in ets && r.value.slug == slug
    ensures r.None? <==> forall e :: e in ets ==> e.slug != slug
  {
    Find(ets, (e: EventType) => e.slug == slug)
  }
}
