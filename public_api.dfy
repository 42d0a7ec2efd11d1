/** The three public endpoints a booker uses: the free slots of a day, the
    bookable days of a month, and the reservation itself. The tables are
    inputs (the reservation writes through the booking ledger); "now" and
    "today" are parameters. */
module PublicApi {
  import opened Common
  import opened Entities
  import opened SlotGeneration
  import opened Bookings
  import Availability

  /** An event type a booker may see: it exists under the slug and is active. */
  function PublicEventType(ets: seq<EventType>, slug: string): (r: Option<EventType>)
    ensures r.Some? ==> r.value in ets && r.value.slug == slug && r.value.isActive
    ensures (forall e :: e in ets && e.slug == slug ==> !e.isActive) ==> r.None?
  {
    var e := EventTypeBySlug(ets, slug);
    if e.Some? && e.value.isActive then e else None
  }

  /** The schedule attached to an event type; a missing link and a link to
      a schedule that is gone both read as "no schedule". */
  function AttachedSchedule(ss: seq<Schedule>, e: EventType): (r: Option<Schedule>)
    ensures r.Some? ==> e.scheduleId.Some? && r.value in ss && r.value.id == e.scheduleId.value
    ensures r.None? ==> e.scheduleId.None? || forall s :: s in ss ==> s.id != e.scheduleId.value
  {
    if e.scheduleId.None? then None
    else
      match Availability.ScheduleIndex(ss, e.scheduleId.value)
      case None => None
      case Some(k) => Some(ss[k])
  }

  function OfScheduleTest(scheduleId: nat): DateOverride -> bool
  {
    (o: DateOverride) => o.scheduleId == scheduleId
  }

  /** The overrides the schedule include loads. */
  function ScheduleOverrides(os: seq<DateOverride>, scheduleId: nat): (r: seq<DateOverride>)
    ensures forall o :: o in r <==> o in os && o.scheduleId == scheduleId
  {
    var r := Filter(os, OfScheduleTest(scheduleId));
    assert forall o :: o in r <==> o in os && o.scheduleId == scheduleId by {
      forall o ensures o in r <==> o in os && o.scheduleId == scheduleId {
        FilterMembership(os, OfScheduleTest(scheduleId), o);
      }
    }
    r
  }

  function DayBookingTest(eventTypeId: nat, date: int): Booking -> bool
  {
    (b: Booking) => b.eventTypeId == eventTypeId && b.status == Confirmed &&
                    date * MINUTES_PER_DAY <= b.startTime < date * MINUTES_PER_DAY + MINUTES_PER_DAY
  }

  /** The bookings the slot service fetches: CONFIRMED, of the event type,
      starting on the requested day. */
  function DayBookings(bs: seq<Booking>, eventTypeId: nat, date: int): (r: seq<Booking>)
    ensures forall b :: b in r <==> b in bs && DayBookingTest(eventTypeId, date)(b)
  {
    var r := Filter(bs, DayBookingTest(eventTypeId, date));
    assert forall b :: b in r <==> b in bs && DayBookingTest(eventTypeId, date)(b) by {
      forall b ensures b in r <==> b in bs && DayBookingTest(eventTypeId, date)(b) {
        FilterMembership(bs, DayBookingTest(eventTypeId, date), b);
      }
    }
    r
  }

  // ---------------------------------------------------------------------
  // Slots of a day

  datatype SlotsReply = SlotsReply(date: int, slots: seq<SlotView>, timezone: string)

  /** `getAvailableSlots`: 400 without a date, 404 for an unknown or
      inactive event type, 400 without a schedule; otherwise the slot
      pipeline's result for the day, with the request's timezone or else the
      schedule's. A non-blocked override without a time fails with 500. */
  method GetAvailableSlots(slug: string, date: Option<int>, timezone: string, ets: seq<EventType>,
                           ss: seq<Schedule>, os: seq<DateOverride>, bs: seq<Booking>, now: int)
    returns (r: Response<SlotsReply>)
    requires date.Some? && PublicEventType(ets, slug).Some? ==> PublicEventType(ets, slug).value.duration > 0
    ensures date.None? ==> r == Err(400, "Date is required")
    ensures date.Some? && PublicEventType(ets, slug).None? ==> r == Err(404, "Event type not found")
    ensures date.Some? && PublicEventType(ets, slug).Some? &&
            AttachedSchedule(ss, PublicEventType(ets, slug).value).None? ==>
              r == Err(400, "No availability schedule configured")
    ensures date.Some? && PublicEventType(ets, slug).Some? &&
            AttachedSchedule(ss, PublicEventType(ets, slug).value).Some? ==>
              var e := PublicEventType(ets, slug).value;
              var s := AttachedSchedule(ss, e).value;
              match FinalSlots(e, s.rules, ScheduleOverrides(os, s.id), date.value,
                               DayBookings(bs, e.id, date.value), now)
              case None => r == Err(500, "Failed to fetch available slots")
              case Some(final) =>
                r == Ok(200, SlotsReply(date.value, Views(final), if timezone != "" then timezone else s.timezone))
  {
    if date.None? {
      return Err(400, "Date is required");
    }
    var e := PublicEventType(ets, slug);
    if e.None? {
      return Err(404, "Event type not found");
    }
    var s := AttachedSchedule(ss, e.value);
    if s.None? {
      return Err(400, "No availability schedule configured");
    }
    var slots := GenerateAvailableSlots(e.value, s.value.rules, ScheduleOverrides(os, s.value.id), date.value,
                                        DayBookings(bs, e.value.id, date.value), now);
    if slots.None? {
      return Err(500, "Failed to fetch available slots");
    }
    r := Ok(200, SlotsReply(date.value, slots.value, if timezone != "" then timezone else s.value.timezone));
  }

  /** Every slot the endpoint offers is clear of every CONFIRMED booking of
      the event type that starts that day. */
  lemma OfferedSlotsAreFree(e: EventType, s: Schedule, os: seq<DateOverride>, bs: seq<Booking>, date: int,
                            now: int, slot: Slot, b: Booking)
    requires e.duration > 0
    requires FinalSlots(e, s.rules, ScheduleOverrides(os, s.id), date, DayBookings(bs, e.id, date), now).Some?
    requires slot in FinalSlots(e, s.rules, ScheduleOverrides(os, s.id), date, DayBookings(bs, e.id, date), now).value
    requires b in bs && b.eventTypeId == e.id && b.status == Confirmed
    requires date * MINUTES_PER_DAY <= b.startTime < date * MINUTES_PER_DAY + MINUTES_PER_DAY
    ensures !(slot.start < b.endTime && slot.end > b.startTime)
  {
    var day := DayBookings(bs, e.id, date);
    assert b in day;
    PipelineExact(e, s.rules, ScheduleOverrides(os, s.id), date, day, now);
  }

  // ---------------------------------------------------------------------
  // Days of a month

  predicate RuleOnWeekday(rules: seq<Rule>, weekday: int)
  {
    exists rule :: rule in rules && rule.dayOfWeek == weekday
  }

  predicate BlockedOn(os: seq<DateOverride>, day: int)
  {
    exists o :: o in os && o.isBlocked && o.date == day
  }

  /** The calendar's test for one day: not before today, on a weekday with
      a rule, and not blocked. */
  predicate OpenDay(day: int, rules: seq<Rule>, os: seq<DateOverride>, today: int)
  {
    day >= today && RuleOnWeekday(rules, DayOfWeek(day)) && !BlockedOn(os, day)
  }

  /** Only blocked overrides count for the calendar: adding a non-blocked
      one changes nothing. */
  lemma NonBlockedOverrideIgnored(day: int, rules: seq<Rule>, os: seq<DateOverride>, o: DateOverride, today: int)
    requires !o.isBlocked
    ensures OpenDay(day, rules, os + [o], today) == OpenDay(day, rules, os, today)
  {
    assert forall x :: x in os + [o] <==> x in os || x == o;
  }

  predicate StrictlyAscending(ds: seq<int>)
  {
    forall i, j :: 0 <= i < j < |ds| ==> ds[i] < ds[j]
  }

  /** The loop over the days `first`..`last` that collects the open ones. */
  method OpenDaysBetween(first: int, last: int, rules: seq<Rule>, os: seq<DateOverride>, today: int)
    returns (ds: seq<int>)
    ensures StrictlyAscending(ds)
    ensures forall d :: d in ds <==> first <= d <= last && OpenDay(d, rules, os, today)
  {
    ds := [];
    var d := first;
    while d <= last
      invariant d >= first
      invariant StrictlyAscending(ds)
      invariant forall i :: 0 <= i < |ds| ==> ds[i] < d
      invariant forall x :: x in ds <==> first <= x < d && x <= last && OpenDay(x, rules, os, today)
      decreases last + 1 - d
    {
      if d < today {
        d := d + 1;
        continue;
      }
      if !RuleOnWeekday(rules, DayOfWeek(d)) {
        d := d + 1;
        continue;
      }
      if BlockedOn(os, d) {
        d := d + 1;
        continue;
      }
      ds := ds + [d];
      d := d + 1;
    }
  }

  datatype DatesReply = DatesReply(month: int, year: int, availableDates: seq<int>)

  /** `getAvailableDates`: 400 without month or year, 404 and 400 as for
      slots; otherwise the open days of the month in ascending order. The
      month is 1-based and rolls into the neighbouring year when out of
      range, as the controller's calendar arithmetic does. */
  method GetAvailableDates(slug: string, month: Option<int>, year: Option<int>, ets: seq<EventType>,
                           ss: seq<Schedule>, os: seq<DateOverride>, today: int)
    returns (r: Response<DatesReply>)
    ensures month.None? || year.None? ==> r == Err(400, "Month and year are required")
    ensures month.Some? && year.Some? && PublicEventType(ets, slug).None? ==> r == Err(404, "Event type not found")
    ensures month.Some? && year.Some? && PublicEventType(ets, slug).Some? &&
            AttachedSchedule(ss, PublicEventType(ets, slug).value).None? ==>
              r == Err(400, "No availability schedule configured")
    ensures r.Ok? ==>
              && month.Some? && year.Some? && PublicEventType(ets, slug).Some?
              && AttachedSchedule(ss, PublicEventType(ets, slug).value).Some?
              && var s := AttachedSchedule(ss, PublicEventType(ets, slug).value).value;
                 var first := FirstOfMonth(year.value, month.value - 1);
                 var last := FirstOfMonth(year.value, month.value) - 1;
                 && r.code == 200
                 && r.body.month == month.value && r.body.year == year.value
                 && StrictlyAscending(r.body.availableDates)
                 && (forall d :: d in r.body.availableDates <==>
                       (first <= d <= last && OpenDay(d, s.rules, ScheduleOverrides(os, s.id), today)))
    ensures month.Some? && year.Some? && PublicEventType(ets, slug).Some? &&
            AttachedSchedule(ss, PublicEventType(ets, slug).value).Some? ==>
              r.Ok?
  {
    if month.None? || year.None? {
      return Err(400, "Month and year are required");
    }
    var e := PublicEventType(ets, slug);
    if e.None? {
      return Err(404, "Event type not found");
    }
    var s := AttachedSchedule(ss, e.value);
    if s.None? {
      return Err(400, "No availability schedule configured");
    }
    var first := FirstOfMonth(year.value, month.value - 1);
    var last := FirstOfMonth(year.value, month.value) - 1;
    var ds := OpenDaysBetween(first, last, s.value.rules, ScheduleOverrides(os, s.value.id), today);
    r := Ok(200, DatesReply(month.value, year.value, ds));
  }

  // ---------------------------------------------------------------------
  // Reservation

  /** What the booker gets back after a reservation. */
  datatype Receipt = Receipt(id: nat, eventType: string, bookerName: string, bookerEmail: string,
                             startTime: int, endTime: int, timezone: string, status: Status)

  /** The stored timezone: the request's, else the schedule's, else the default. */
  function BookingTimezone(requested: string, schedule: Option<Schedule>): (tz: string)
    ensures requested != "" ==> tz == requested
    ensures requested == "" && schedule.Some? && schedule.value.timezone != "" ==> tz == schedule.value.timezone
    ensures requested == "" && (schedule.None? || schedule.value.timezone == "") ==> tz == DEFAULT_TIMEZONE
    ensures tz != ""
  {
    if requested != "" then requested
    else if schedule.Some? && schedule.value.timezone != "" then schedule.value.timezone
    else DEFAULT_TIMEZONE
  }

  /** `createPublicBooking`: 400 when name, email, date or time is missing,
      404 for an unknown or inactive event type, both without a write; then
      the ledger's reservation from date and time of day for the event
      type's duration, 409 when it conflicts, 201 with the receipt
      otherwise. Whether the confirmation email fails has no effect. */
  method CreatePublicBooking(ledger: Ledger, slug: string, name: string, email: string, date: Option<int>,
                             time: Option<int>, timezone: string, answers: seq<Answer>,
                             ets: seq<EventType>, ss: seq<Schedule>, emailFails: bool)
    returns (r: Response<Receipt>)
    requires ledger.Valid()
    modifies ledger
    ensures ledger.Valid()
    ensures name == "" || email == "" || date.None? || time.None? ==>
              && r == Err(400, "Name, email, date, and time are required")
              && ledger.bookings == old(ledger.bookings) && ledger.nextId == old(ledger.nextId)
    ensures name != "" && email != "" && date.Some? && time.Some? && PublicEventType(ets, slug).None? ==>
              && r == Err(404, "Event type not found")
              && ledger.bookings == old(ledger.bookings) && ledger.nextId == old(ledger.nextId)
    ensures name != "" && email != "" && date.Some? && time.Some? && PublicEventType(ets, slug).Some? ==>
              var e := PublicEventType(ets, slug).value;
              var start := date.value * MINUTES_PER_DAY + time.value;
              var end := start + e.duration;
              if HasConflict(old(ledger.bookings), e.id, start, end, None) then
                && r == Err(409, "This time slot is no longer available")
                && ledger.bookings == old(ledger.bookings) && ledger.nextId == old(ledger.nextId)
              else
                var b := Booking(old(ledger.nextId), e.id, e.userId, name, email, start, end,
                                 BookingTimezone(timezone, AttachedSchedule(ss, e)), Confirmed, None, None, answers);
                && ledger.bookings == old(ledger.bookings) + [b]
                && ledger.nextId == old(ledger.nextId) + 1
                && r == Ok(201, Receipt(b.id, e.title, name, email, start, end, b.timezone, Confirmed))
  {
    if name == "" || email == "" || date.None? || time.None? {
      return Err(400, "Name, email, date, and time are required");
    }
    var e := PublicEventType(ets, slug);
    if e.None? {
      return Err(404, "Event type not found");
    }
    var start := date.value * MINUTES_PER_DAY + time.value;
    var end := start + e.value.duration;
    var tz := BookingTimezone(timezone, AttachedSchedule(ss, e.value));
    var booking := ledger.Reserve(e.value.id, e.value.userId, name, email, start, end, tz, answers);
    if booking.None? {
      return Err(409, "This time slot is no longer available");
    }
    // The confirmation email is sent here; its failure is only logged.
    var b := booking.value;
    r := Ok(201, Receipt(b.id, e.value.title, b.bookerName, b.bookerEmail, b.startTime, b.endTime, b.timezone, b.status));
  }
}
