/** The event-type table and the admin operations that write it:
    creation with its defaults, patch-style update, and the active switch.
    The table keeps its ids and its public slugs unique. */
module EventTypes {
  import opened Common
  import opened Entities

  /** A booking question as the admin form submits it; an empty type is the
      form's falsy value. */
  datatype QuestionInput = QuestionInput(question: string, questionType: string, isRequired: bool,
                                         options: Option<seq<string>>)

  /** The create request. A missing buffer is `None` (its `parseInt` is NaN),
      a missing colour is "", a missing or zero schedule id is 0. */
  datatype CreateInput = CreateInput(
    title: string,
    description: Option<string>,
    slug: string,
    duration: int,
    bufferTimeBefore: Option<int>,
    bufferTimeAfter: Option<int>,
    color: string,
    scheduleId: nat,
    questions: seq<QuestionInput>)

  /** The update request: `None` is a field the request leaves undefined,
      which the database keeps. A falsy duration is 0; a falsy schedule id
      is 0 and clears the link. */
  datatype UpdateInput = UpdateInput(
    title: Option<string>,
    description: Option<string>,
    slug: Option<string>,
    duration: int,
    bufferTimeBefore: Option<int>,
    bufferTimeAfter: Option<int>,
    color: Option<string>,
    isActive: Option<bool>,
    scheduleId: nat,
    questions: Option<seq<QuestionInput>>)

  const DEFAULT_COLOR: string := "#6366f1"

  /** The stored form of submitted questions: ordered by position, with the
      type and the required flag defaulted and options kept only when given. */
  function StoreQuestions(qs: seq<QuestionInput>): (r: seq<StoredQuestion>)
    ensures |r| == |qs|
    ensures forall i :: 0 <= i < |r| ==>
              && r[i].order == i
              && r[i].question == qs[i].question
              && r[i].questionType == (if qs[i].questionType == "" then "TEXT" else qs[i].questionType)
              && r[i].isRequired == qs[i].isRequired
              && r[i].options == qs[i].options
  {
    seq(|qs|, i requires 0 <= i < |qs| =>
      StoredQuestion(qs[i].question, if qs[i].questionType == "" then "TEXT" else qs[i].questionType,
                     qs[i].isRequired, qs[i].options, i))
  }

  /** The row a create request produces under the given id. */
  function NewEventType(id: nat, input: CreateInput): (e: EventType)
    ensures e.id == id && e.userId == ADMIN_USER_ID && e.slug == input.slug && e.isActive
    ensures e.title == input.title && e.description == input.description && e.duration == input.duration
    ensures e.bufferTimeBefore == (if input.bufferTimeBefore.Some? then input.bufferTimeBefore.value else 0)
    ensures e.bufferTimeAfter == (if input.bufferTimeAfter.Some? then input.bufferTimeAfter.value else 0)
    ensures e.color == (if input.color == "" then DEFAULT_COLOR else input.color)
    ensures e.scheduleId == (if input.scheduleId == 0 then None else Some(input.scheduleId))
    ensures e.questions == StoreQuestions(input.questions)
  {
    EventType(id, ADMIN_USER_ID, input.title, input.description, input.slug, input.duration,
              if input.bufferTimeBefore.Some? then input.bufferTimeBefore.value else 0,
              if input.bufferTimeAfter.Some? then input.bufferTimeAfter.value else 0,
              if input.color == "" then DEFAULT_COLOR else input.color,
              true,
              if input.scheduleId == 0 then None else Some(input.scheduleId),
              StoreQuestions(input.questions))
  }

  function Patch<T>(current: T, given: Option<T>): T
  {
    if given.Some? then given.value else current
  }

  /** The row after an update: given fields replace, undefined ones stay,
      except the schedule link, which a falsy id clears. */
  function Updated(e: EventType, input: UpdateInput): (r: EventType)
    ensures r.id == e.id && r.userId == e.userId
    ensures input.title.Some? ==> r.title == input.title.value
    ensures input.title.None? ==> r.title == e.title
    ensures input.description.Some? ==> r.description == input.description
    ensures input.description.None? ==> r.description == e.description
    ensures input.slug.Some? ==> r.slug == input.slug.value
    ensures input.slug.None? ==> r.slug == e.slug
    ensures input.duration != 0 ==> r.duration == input.duration
    ensures input.duration == 0 ==> r.duration == e.duration
    ensures input.bufferTimeBefore.Some? ==> r.bufferTimeBefore == input.bufferTimeBefore.value
    ensures input.bufferTimeBefore.None? ==> r.bufferTimeBefore == e.bufferTimeBefore
    ensures input.bufferTimeAfter.Some? ==> r.bufferTimeAfter == input.bufferTimeAfter.value
    ensures input.bufferTimeAfter.None? ==> r.bufferTimeAfter == e.bufferTimeAfter
    ensures input.color.Some? ==> r.color == input.color.value
    ensures input.color.None? ==> r.color == e.color
    ensures input.isActive.Some? ==> r.isActive == input.isActive.value
    ensures input.isActive.None? ==> r.isActive == e.isActive
    ensures input.scheduleId != 0 ==> r.scheduleId == Some(input.scheduleId)
    ensures input.scheduleId == 0 ==> r.scheduleId.None?
    ensures input.questions.None? ==> r.questions == e.questions
    ensures input.questions.Some? ==> r.questions == StoreQuestions(input.questions.value)
  {
    EventType(e.id, e.userId,
              Patch(e.title, input.title),
              if input.description.Some? then input.description else e.description,
              Patch(e.slug, input.slug),
              if input.duration != 0 then input.duration else e.duration,
              Patch(e.bufferTimeBefore, input.bufferTimeBefore),
              Patch(e.bufferTimeAfter, input.bufferTimeAfter),
              Patch(e.color, input.color),
              Patch(e.isActive, input.isActive),
              if input.scheduleId == 0 then None else Some(input.scheduleId),
              if input.questions.Some? then StoreQuestions(input.questions.value) else e.questions)
  }

  /** Position of the event type with the given id. */
  function IndexOfId(ets: seq<EventType>, id: nat): (r: Option<nat>)
    ensures r.Some? ==> r.value < |ets| && ets[r.value].id == id
    ensures r.None? ==> forall i :: 0 <= i < |ets| ==> ets[i].id != id
  {
    IndexOfKey(ets, (e: EventType) => e.id, id)
  }

  predicate SlugTaken(ets: seq<EventType>, slug: string)
  {
    exists i :: 0 <= i < |ets| && ets[i].slug == slug
  }

  /** The update's slug query: another event type carries the slug; with no
      slug in the request the query has no slug condition at all and any
      other event type matches. */
  predicate SlugTakenByOther(ets: seq<EventType>, slug: Option<string>, id: nat)
  {
    exists i :: 0 <= i < |ets| && ets[i].id != id && (slug.None? || ets[i].slug == slug.value)
  }

  predicate UniqueSlugs(ets: seq<EventType>)
  {
    forall i, j :: 0 <= i < |ets| && 0 <= j < |ets| && i != j ==> ets[i].slug != ets[j].slug
  }

  predicate UniqueEventTypeIds(ets: seq<EventType>)
  {
    forall i, j :: 0 <= i < |ets| && 0 <= j < |ets| && i != j ==> ets[i].id != ets[j].id
  }

  /** The table with the active flag of row `k` flipped. */
  function Toggled(ets: seq<EventType>, k: nat): (r: seq<EventType>)
    requires k < |ets|
    ensures |r| == |ets| && r[k].isActive == !ets[k].isActive
    ensures forall i :: 0 <= i < |ets| && i != k ==> r[i] == ets[i]
  {
    ets[k := ets[k].(isActive := !ets[k].isActive)]
  }

  lemma ToggleTwiceRestores(ets: seq<EventType>, k: nat)
    requires k < |ets|
    ensures Toggled(Toggled(ets, k), k) == ets
  {
    assert Toggled(Toggled(ets, k), k)[k] == ets[k];
  }

  /** An update that passed the slug query keeps slugs unique. */
  lemma {:induction false} UpdateKeepsSlugsUnique(ets: seq<EventType>, k: nat, input: UpdateInput)
    requires UniqueSlugs(ets) && UniqueEventTypeIds(ets) && k < |ets|
    requires !SlugTakenByOther(ets, input.slug, ets[k].id)
    ensures UniqueSlugs(ets[k := Updated(ets[k], input)])
  {
    var ets' := ets[k := Updated(ets[k], input)];
    forall i, j | 0 <= i < |ets'| && 0 <= j < |ets'| && i != j
      ensures ets'[i].slug != ets'[j].slug
    {
      if i == k {
        assert ets[j].id != ets[k].id;
      } else if j == k {
        assert ets[i].id != ets[k].id;
      }
    }
  }

  class EventTypeStore {
    var eventTypes: seq<EventType>
    var nextId: nat

    ghost predicate Valid()
      reads this
    {
      && (forall i :: 0 <= i < |eventTypes| ==> eventTypes[i].id < nextId)
      && UniqueEventTypeIds(eventTypes)
      && UniqueSlugs(eventTypes)
    }

    constructor ()
      ensures Valid() && eventTypes == [] && nextId == 1
    {
      eventTypes := [];
      nextId := 1;
    }

    /** `createEventType`: a taken slug is refused (400) and nothing is
        created; otherwise the defaulted row is added (201). */
    method Create(input: CreateInput) returns (r: Response<EventType>)
      requires Valid()
      modifies this
      ensures Valid()
      ensures SlugTaken(old(eventTypes), input.slug) ==>
                r == Err(400, "URL slug already exists") && eventTypes == old(eventTypes) && nextId == old(nextId)
      ensures !SlugTaken(old(eventTypes), input.slug) ==>
                && r == Ok(201, NewEventType(old(nextId), input))
                && eventTypes == old(eventTypes) + [r.body]
                && nextId == old(nextId) + 1
    {
      if SlugTaken(eventTypes, input.slug) {
        return Err(400, "URL slug already exists");
      }
      var e := NewEventType(nextId, input);
      eventTypes := eventTypes + [e];
      nextId := nextId + 1;
      r := Ok(201, e);
    }

    /** `updateEventType`: refused (400) when the slug query finds another
        event type; an unknown id makes the update throw (500); otherwise
        the row is patched. */
    method Update(id: nat, input: UpdateInput) returns (r: Response<EventType>)
      requires Valid()
      modifies this
      ensures Valid() && nextId == old(nextId)
      ensures SlugTakenByOther(old(eventTypes), input.slug, id) ==>
                r == Err(400, "URL slug already exists") && eventTypes == old(eventTypes)
      ensures !SlugTakenByOther(old(eventTypes), input.slug, id) && IndexOfId(old(eventTypes), id).None? ==>
                r == Err(500, "Failed to update event type") && eventTypes == old(eventTypes)
      ensures !SlugTakenByOther(old(eventTypes), input.slug, id) && IndexOfId(old(eventTypes), id).Some? ==>
                var k := IndexOfId(old(eventTypes), id).value;
                && r == Ok(200, Updated(old(eventTypes)[k], input))
                && eventTypes == old(eventTypes)[k := r.body]
    {
      if SlugTakenByOther(eventTypes, input.slug, id) {
        return Err(400, "URL slug already exists");
      }
      var k := IndexOfId(eventTypes, id);
      if k.None? {
        return Err(500, "Failed to update event type");
      }
      var e := Updated(eventTypes[k.value], input);
      UpdateKeepsSlugsUnique(eventTypes, k.value, input);
      eventTypes := eventTypes[k.value := e];
      r := Ok(200, e);
    }

    /** `toggleEventTypeStatus`: 404 for an unknown id, otherwise the
        active flag of that row is negated. */
    method Toggle(id: nat) returns (r: Response<EventType>)
      requires Valid()
      modifies this
      ensures Valid() && nextId == old(nextId)
      ensures IndexOfId(old(eventTypes), id).None? ==>
                r == Err(404, "Event type not found") && eventTypes == old(eventTypes)
      ensures IndexOfId(old(eventTypes), id).Some? ==>
                var k := IndexOfId(old(eventTypes), id).value;
                && eventTypes == Toggled(old(eventTypes), k)
                && r == Ok(200, eventTypes[k])
    {
      var k := IndexOfId(eventTypes, id);
      if k.None? {
        return Err(404, "Event type not found");
      }
      eventTypes := Toggled(eventTypes, k.value);
      r := Ok(200, eventTypes[k.value]);
    }
  }
}
