# Scheduler core in Dafny

A model of the core of a Cal.com-style scheduling application: one host
publishes event types (a meeting length, buffers, booking questions and a
link to an availability schedule), and bookers reserve slots through a
public API. The model covers

- the slot pipeline `generateAvailableSlots`: weekly rules, date overrides,
  fixed-length slot packing, removal of slots that overlap a confirmed
  booking, that break a buffer, or that have already started
  (`slot_generation.dfy`);
- the three public endpoints: the free slots of a day, the open days of a
  month, and the reservation transaction (`public_api.dfy`);
- the booking table with reservation, cancellation, rescheduling, the admin
  list filter and the dashboard counts, under the invariant that no two
  CONFIRMED bookings of one event type overlap (`bookings.dfy`);
- the event-type table: create with defaults, patch-style update, the
  active switch, with unique ids and slugs (`event_types.dfy`);
- the availability-schedule table with its date overrides: at most one
  default schedule, overrides that point at an existing schedule, one
  override per schedule and date (`availability.dfy`);
- the admin pages' pure helpers: slug generation and the booking-question
  editors (`event_type_form.dfy`), the time-option table and the weekday
  editors of the schedule page (`availability_edit.dfy`), and the schedule
  list's one-line summary with its time formatting
  (`availability_summary.dfy`).

Conventions: an instant is a whole number of minutes since 1970-01-01 00:00
(day `d` starts at minute `1440 * d`); a date is a day number, and day 0 is
a Thursday. A JavaScript falsy string is `""`. A request field the client
leaves undefined is `None`, and the database then keeps the stored value.
A controller reply is `Response<T>`: `Ok(code, body)` or
`Err(code, message)`. The database tables are `seq` fields of the classes
`Ledger`, `EventTypeStore` and `ScheduleStore`. Their methods change these
fields in place, keep a `Valid()` invariant, and state the whole new table.
The shared definitions are in `common.dfy` and `entities.dfy`.

## Model

| member | source | states |
|---|---|---|
| Common.Pad2 | frontend/src/pages/admin/AvailabilityEdit.jsx:17-18 | a number below 100 becomes two digits that read back as the number |
| Common.NatToStringRoundTrip | frontend/src/pages/admin/AvailabilityEdit.jsx:17-19 | the decimal text of a number reads back as that number |
| Common.ClockRoundTrip | backend/src/services/slotGenerationService.js:80 | the "HH:MM" text of a minute of the day is well formed and parses back to that minute |
| Common.DayOfWeek | backend/src/services/slotGenerationService.js:24 | the weekday of a day number is in 0..6, with Sunday as 0 |
| Common.CalendarAnchor | backend/src/services/slotGenerationService.js:24 | day 0 is 1970-01-01; the Sunday 1970-01-04 has weekday 0 and the Monday after it weekday 1, as `getDay()` numbers them |
| Entities.EventTypeById | backend/src/controllers/bookingController.js:118-121 | the event type found has the id; none is found exactly when no row has it |
| Entities.EventTypeBySlug | backend/src/controllers/publicController.js:59-69 | the event type found carries the slug; none is found exactly when no row has it |
| SlotGeneration.DayRules | backend/src/services/slotGenerationService.js:28-32 | exactly the rules on the date's weekday are kept; with none, the result is empty |
| SlotGeneration.FindOverride | backend/src/services/slotGenerationService.js:35-37 | the first override of the date, and none exactly when no override has that date |
| SlotGeneration.ResolvePeriods | backend/src/services/slotGenerationService.js:27-58 | no rule on the weekday gives no period; a blocked override gives none; a non-blocked override replaces the rules by its own times, and one without times is an error; without an override, the weekday's rules become periods one for one, in order, with their own start and end |
| SlotGeneration.PackCount | backend/src/services/slotGenerationService.js:73-84 | a period yields floor(length / duration) slots, and none when it is empty or inverted |
| SlotGeneration.PackBounds | backend/src/services/slotGenerationService.js:73-84 | n whole durations fit into the period and n + 1 do not |
| SlotGeneration.PackAt | backend/src/services/slotGenerationService.js:73-84 | slot k starts k durations after the period start, lasts one duration, ends by the period end, abuts slot k + 1, and is labelled with its start time |
| SlotGeneration.PackPeriod | backend/src/services/slotGenerationService.js:67-84 | the packing loop emits exactly the slot sequence of the period |
| SlotGeneration.GenerateRawSlots | backend/src/services/slotGenerationService.js:60-85 | the raw slots are each period packed in turn, concatenated in period order |
| SlotGeneration.Views | backend/src/services/slotGenerationService.js:140-144 | one view per slot, with the slot's label and marked available |
| SlotGeneration.GenerateAvailableSlots | backend/src/services/slotGenerationService.js:16-145 | the reply is the views of the slots that survive all filters; no weekday rule or a blocked first override gives an empty reply; every view is available |
| SlotGeneration.NoRuleMeansNoSlots | backend/src/services/slotGenerationService.js:28-32 | with no rule on the weekday nothing is offered, whatever the overrides say |
| SlotGeneration.BlockedDateMeansNoSlots | backend/src/services/slotGenerationService.js:35-41 | a blocked override of the date empties the day |
| SlotGeneration.PipelineExact | backend/src/services/slotGenerationService.js:99-138 | a slot survives exactly when it is a raw slot that is free of the bookings, keeps both buffers and starts after now; survivors keep the raw order |
| SlotGeneration.SurvivorsKeepTheirDistance | backend/src/services/slotGenerationService.js:113-138 | every offered slot ends at least the after-buffer before each booking starts, or starts at least the before-buffer after it ends, and starts after now |
| SlotGeneration.BookedSlotDisappears | backend/src/services/slotGenerationService.js:99-111 | a slot that overlaps any booking of the day, such as the booking made for exactly that slot, is not offered |
| SlotGeneration.LabelIsStartTime | backend/src/services/slotGenerationService.js:80 | a slot's label parses back to its start minute of the day |
| Bookings.Conflicts | backend/src/controllers/publicController.js:199-203 | the three-part conflict query never misses an overlap, and equals the half-open overlap test when both intervals have positive length |
| Bookings.ZeroLengthRequestDiffers | backend/src/controllers/publicController.js:199-203 | for a zero-length request the query reports a conflict that the half-open test does not |
| Bookings.AppendKeepsNoOverlap | backend/src/controllers/publicController.js:193-238 | inserting a CONFIRMED booking that the conflict query clears keeps confirmed bookings of an event type pairwise disjoint |
| Bookings.ReleaseKeepsNoOverlap | backend/src/controllers/bookingController.js:86-95 | turning a booking into a non-confirmed one keeps the invariant |
| Bookings.SecondReservationConflicts | backend/src/controllers/publicController.js:195-209 | once a reservation of an interval is stored, a second reservation of it is refused |
| Bookings.IndexOf | backend/src/controllers/bookingController.js:118-125 | the position found holds the id; none is found exactly when no row has it |
| Bookings.CancelledBooking | backend/src/controllers/bookingController.js:86-95 | the row becomes CANCELLED with the given reason; every other field is unchanged |
| Bookings.BuildWhere | backend/src/controllers/bookingController.js:16-31 | the filter selects the host's rows; upcoming means CONFIRMED from now on (overriding the status); otherwise the status when given, and with past, started before now or CANCELLED or RESCHEDULED |
| Bookings.InsertByStart | backend/src/controllers/bookingController.js:45 | insertion adds exactly the one row (as a multiset) |
| Bookings.InsertKeepsSorted | backend/src/controllers/bookingController.js:45 | insertion into a list ordered by start keeps it ordered |
| Bookings.SortByStart | backend/src/controllers/bookingController.js:45 | the sort is a permutation of the rows |
| Bookings.SortByStartSorted | backend/src/controllers/bookingController.js:45 | the sorted rows are ordered by start time, ascending or descending as requested |
| Bookings.DisjointCountsWithin | backend/src/controllers/bookingController.js:193-206 | two conditions that exclude each other and both imply a third count at most as many rows as the third |
| Bookings.CountWithin | backend/src/controllers/bookingController.js:197-204 | a stronger condition counts no more rows |
| Bookings.BookingStats | backend/src/controllers/bookingController.js:186-218 | each count is the number of the host's rows that pass its test (upcoming and confirmed, starting today, any, cancelled); upcoming plus cancelled is at most the total, and today's count is at most the total |
| Bookings.UpcomingListAndCountDiffer | backend/src/controllers/bookingController.js:23-25 | a CONFIRMED booking starting right now is in the upcoming list but not in the upcoming count |
| Bookings.Ledger.Reserve | backend/src/controllers/publicController.js:193-238 | refused with no write exactly when a CONFIRMED booking of the event type conflicts; otherwise a CONFIRMED row under the next id is appended; the invariant holds |
| Bookings.Ledger.Cancel | backend/src/controllers/bookingController.js:81-109 | an unknown id fails with 500 and no change; otherwise only that row becomes cancelled; the invariant holds |
| Bookings.Ledger.Reschedule | backend/src/controllers/bookingController.js:112-183 | 404 for an unknown id; 400 with no change when another CONFIRMED booking conflicts with the new interval; otherwise the original becomes RESCHEDULED and a CONFIRMED copy at the new time, linked to it, is appended; the invariant holds |
| Bookings.Ledger.GetAllBookings | backend/src/controllers/bookingController.js:11-53 | the reply holds exactly the rows the query selects, as a permutation of them, ordered by start (ascending for upcoming, else descending) |
| Bookings.RescheduleKeepsIds | backend/src/controllers/bookingController.js:150-169 | the successor under the next id keeps ids unique and below the counter |
| Bookings.RescheduleKeepsNoOverlap | backend/src/controllers/bookingController.js:132-169 | the reschedule's two writes keep confirmed bookings disjoint, given the query that skips the original |
| EventTypes.StoreQuestions | backend/src/controllers/eventTypeController.js:90-98 | one stored question per submitted one, at its position, with the type defaulting to TEXT |
| EventTypes.NewEventType | backend/src/controllers/eventTypeController.js:79-98 | the created row: the host's, active, with the request's title, description, slug and duration, buffers 0 when unparseable, the default colour when none is given, no schedule for a falsy id, the stored questions |
| EventTypes.Updated | backend/src/controllers/eventTypeController.js:137-157 | every given field (title, description, slug, buffers, colour, active flag) takes the given value and every undefined one is kept; a non-zero duration replaces the old one and a falsy one keeps it; a non-zero schedule id sets the link and a falsy one clears it; a given question list replaces the old one; id and host never change |
| EventTypes.IndexOfId | backend/src/controllers/eventTypeController.js:193-199 | the position found holds the id; none is found exactly when no row has it |
| EventTypes.Toggled | backend/src/controllers/eventTypeController.js:201-204 | only that row's active flag flips |
| EventTypes.ToggleTwiceRestores | backend/src/controllers/eventTypeController.js:201-204 | toggling twice gives back the table |
| EventTypes.UpdateKeepsSlugsUnique | backend/src/controllers/eventTypeController.js:118-163 | an update that passed the slug query keeps slugs unique |
| EventTypes.EventTypeStore.Create | backend/src/controllers/eventTypeController.js:64-110 | a taken slug is refused with 400 and no write; otherwise the defaulted row under the next id is appended; ids and slugs stay unique |
| EventTypes.EventTypeStore.Update | backend/src/controllers/eventTypeController.js:113-170 | 400 with no write when the slug query finds another event type (any other one when no slug is sent); 500 for an unknown id; otherwise only that row is patched; ids and slugs stay unique |
| EventTypes.EventTypeStore.Toggle | backend/src/controllers/eventTypeController.js:189-211 | 404 for an unknown id; otherwise only that row's flag is negated |
| Availability.Demoted | backend/src/controllers/availabilityController.js:69-74 | only the default flags of the user's other defaults are cleared; afterwards no default of the user remains except the excluded id |
| Availability.ScheduleIndex | backend/src/controllers/availabilityController.js:124-125 | the position found holds the id; none is found exactly when no row has it |
| Availability.OverrideIndex | backend/src/controllers/availabilityController.js:210-211 | the position found holds the id; none is found exactly when no row has it |
| Availability.OverrideUpdated | backend/src/controllers/availabilityController.js:210-217 | the flag when given; a set flag clears both times; otherwise given times replace and omitted ones stay |
| Availability.OmittedFlagCanLeaveTimes | backend/src/controllers/availabilityController.js:210-217 | without the flag, a blocked override takes the submitted times and stays blocked |
| Availability.UsageCount | backend/src/controllers/availabilityController.js:157-159 | the count is positive exactly when some event type references the schedule |
| Availability.ScheduleStore.CreateSchedule | backend/src/controllers/availabilityController.js:63-100 | a default schedule first demotes the others; the new row has the next id, the given or default timezone and the rules; at most one default remains |
| Availability.ScheduleStore.UpdateSchedule | backend/src/controllers/availabilityController.js:103-149 | setting the flag demotes the other defaults (even for an unknown id, which then fails with 500); given fields replace, a given rule list replaces the rules; at most one default remains |
| Availability.ScheduleStore.DeleteSchedule | backend/src/controllers/availabilityController.js:152-176 | 400 with the usage count and no change while event types use it; 500 for an unknown id; otherwise the row and its overrides go; every remaining override still points at a schedule |
| Availability.ScheduleStore.AddDateOverride | backend/src/controllers/availabilityController.js:179-202 | 500 for an unknown schedule; 400 when the schedule already has an override on the date; otherwise a row under the next id, without times when blocked |
| Availability.ScheduleStore.UpdateDateOverride | backend/src/controllers/availabilityController.js:205-224 | 500 for an unknown id; otherwise only that row is rewritten as the update rule says; blocked overrides keep no times when the flag is sent |
| Availability.DemoteKeepsTables | backend/src/controllers/availabilityController.js:69-74 | demoting keeps the table invariants |
| Availability.AppendKeepsTables | backend/src/controllers/availabilityController.js:76-93 | a new schedule under the next id that is not a second default keeps the invariants |
| Availability.ReplaceKeepsTables | backend/src/controllers/availabilityController.js:124-142 | rewriting a schedule under its id keeps the invariants when it does not become a second default |
| Availability.AddOverrideKeepsTables | backend/src/controllers/availabilityController.js:184-192 | a new override for an existing schedule on a free date keeps the invariants |
| Availability.RewriteOverrideKeepsTables | backend/src/controllers/availabilityController.js:210-217 | rewriting an override under its id, schedule and date keeps the invariants |
| Availability.DeleteKeepsTables | backend/src/controllers/availabilityController.js:167-169 | removing a schedule with its overrides keeps ids unique, one default at most, and every override's schedule present |
| PublicApi.PublicEventType | backend/src/controllers/publicController.js:71-73 | only an active event type with the slug is shown; with no active one under the slug, none is |
| PublicApi.AttachedSchedule | backend/src/controllers/publicController.js:75-77 | the linked schedule when the link is set and the schedule exists, else none |
| PublicApi.ScheduleOverrides | backend/src/controllers/publicController.js:62-67 | exactly the overrides of the schedule |
| PublicApi.DayBookings | backend/src/services/slotGenerationService.js:88-97 | exactly the CONFIRMED bookings of the event type that start on the day |
| PublicApi.GetAvailableSlots | backend/src/controllers/publicController.js:50-91 | 400 without a date, 404 for a missing or inactive event type, 400 without a schedule, 500 when the pipeline fails; otherwise the pipeline's slots with the request's or the schedule's timezone |
| PublicApi.OfferedSlotsAreFree | backend/src/controllers/publicController.js:79-86 | no offered slot overlaps a CONFIRMED booking of the event type on that day |
| PublicApi.NonBlockedOverrideIgnored | backend/src/controllers/publicController.js:125-127 | a non-blocked override does not change whether a day is open |
| PublicApi.OpenDaysBetween | backend/src/controllers/publicController.js:135-150 | exactly the open days of the range, in strictly ascending order |
| PublicApi.GetAvailableDates | backend/src/controllers/publicController.js:94-157 | 400 without month or year, 404 and 400 as for slots; otherwise exactly the days of the month that are not past, fall on a ruled weekday and are not blocked, ascending |
| PublicApi.BookingTimezone | backend/src/controllers/publicController.js:220 | the request's timezone, else the schedule's, else the default; never empty |
| PublicApi.CreatePublicBooking | backend/src/controllers/publicController.js:160-264 | 400 when a field is missing and 404 for an unknown or inactive event type, both without a write; 409 with no write on a conflict (the id counter is untouched on all three); otherwise the CONFIRMED row is stored under the next id and its receipt returned with 201 |
| EventTypeForm.LowerChar | frontend/src/pages/admin/EventTypeForm.jsx:71 | ASCII capitals become lower case, other characters stay |
| EventTypeForm.CollapseRuns | frontend/src/pages/admin/EventTypeForm.jsx:72 | the result has only a-z, 0-9 and dashes, no two dashes in a row, and is empty only for empty input |
| EventTypeForm.TrimDashes | frontend/src/pages/admin/EventTypeForm.jsx:73 | the result also has no dash at either end |
| EventTypeForm.GenerateSlug | frontend/src/pages/admin/EventTypeForm.jsx:69-74 | every generated slug is canonical: slug characters only, single dashes, none at the ends |
| EventTypeForm.CanonicalSlugIsFixed | frontend/src/pages/admin/EventTypeForm.jsx:69-74 | a canonical slug is its own slug |
| EventTypeForm.GenerateSlugIdempotent | frontend/src/pages/admin/EventTypeForm.jsx:69-74 | generating a slug twice changes nothing |
| EventTypeForm.HandleTitleChange | frontend/src/pages/admin/EventTypeForm.jsx:76-83 | the title changes; a new event type gets the slug of the title, an edited one keeps its slug |
| EventTypeForm.AddQuestion | frontend/src/pages/admin/EventTypeForm.jsx:85-93 | one blank optional TEXT question without options is appended |
| EventTypeForm.UpdateQuestion | frontend/src/pages/admin/EventTypeForm.jsx:95-102 | only the indexed question's field changes |
| EventTypeForm.RemoveQuestion | frontend/src/pages/admin/EventTypeForm.jsx:104-109 | exactly the indexed question goes, the rest keep their order; an index outside the list changes nothing |
| EventTypeForm.RemoveUndoesAdd | frontend/src/pages/admin/EventTypeForm.jsx:85-109 | removing the question just added gives back the list |
| EventTypeForm.LaterEditWins | frontend/src/pages/admin/EventTypeForm.jsx:95-102 | of two edits to the same field only the later one remains |
| AvailabilityEdit.Hour12 | frontend/src/pages/admin/AvailabilityEdit.jsx:16 | the 12-hour clock hour is in 1..12 and agrees with the hour modulo 12 |
| AvailabilityEdit.GenerateTimeOptions | frontend/src/pages/admin/AvailabilityEdit.jsx:9-24 | 96 entries, entry k being minute 15 * k as "HH:MM" with its 12-hour label |
| AvailabilityEdit.TimeOptionValues | frontend/src/pages/admin/AvailabilityEdit.jsx:11-18 | the values parse back to 0, 15, ..., 1425 minutes, from "00:00" to "23:45" |
| AvailabilityEdit.TimeOptionLabels | frontend/src/pages/admin/AvailabilityEdit.jsx:15-19 | midnight and noon read 12; am exactly before noon and pm exactly from noon |
| AvailabilityEdit.HandleDayToggle | frontend/src/pages/admin/AvailabilityEdit.jsx:72-83 | the day is switched: its rules go when it had some, else one 09:00-17:00 rule is appended |
| AvailabilityEdit.DayToggleKeepsOtherDays | frontend/src/pages/admin/AvailabilityEdit.jsx:72-83 | the rules of every other day are unchanged, in order |
| AvailabilityEdit.DayToggleTwiceRestores | frontend/src/pages/admin/AvailabilityEdit.jsx:72-83 | switching a day on and off again gives back the rules |
| AvailabilityEdit.UpdateRuleTime | frontend/src/pages/admin/AvailabilityEdit.jsx:85-92 | the field of every rule of the day takes the value; other rules and fields are unchanged |
| AvailabilityEdit.DefaultRules | frontend/src/pages/admin/AvailabilityEdit.jsx:46-53 | a new schedule starts with Monday to Friday, 09:00-17:00 |
| AvailabilitySummary.BeforeColon | frontend/src/pages/admin/Availability.jsx:48 | the text before the first colon |
| AvailabilitySummary.ParseIntPrefix | frontend/src/pages/admin/Availability.jsx:49 | a leading digit gives a number, text without digits gives NaN |
| AvailabilitySummary.TruncatedRemainder | frontend/src/pages/admin/Availability.jsx:51 | the remainder is smaller than the divisor in magnitude, is the usual one for non-negative numbers, and for a negative dividend is non-positive and differs from the dividend by a multiple of the divisor |
| AvailabilitySummary.FormatTime | frontend/src/pages/admin/Availability.jsx:46-53 | empty text stays empty; otherwise the 12-hour hour comes first and " AM" or " PM" last |
| AvailabilitySummary.FormatClockText | frontend/src/pages/admin/Availability.jsx:46-53 | a well-formed "HH:MM" is shown as the 12-hour hour, the minutes and AM or PM |
| AvailabilitySummary.GetDaySummary | frontend/src/pages/admin/Availability.jsx:26-44 | no rules: "No availability configured"; five rules without Sunday and Saturday, or seven rules: the fixed texts |
| AvailabilitySummary.SummaryStartsWithFirstDay | frontend/src/pages/admin/Availability.jsx:40-43 | the fallback summary starts with the first rule's day name |
| AvailabilitySummary.SummaryEndsWithEndTime | frontend/src/pages/admin/Availability.jsx:42-43 | the fallback summary ends with the first rule's formatted end time |
| AvailabilitySummary.WeekdaySummaryIgnoresTimes | frontend/src/pages/admin/Availability.jsx:36 | Monday to Friday is summarised as 9:00 AM - 5:00 PM whatever the rules' times are |
| AvailabilitySummary.DefaultRulesSummary | frontend/src/pages/admin/Availability.jsx:36 | a new schedule's rules are summarised as "Mon - Fri, 9:00 AM - 5:00 PM" |
| AvailabilitySummary.SingleRuleSummary | frontend/src/pages/admin/Availability.jsx:40-43 | a single rule is summarised as its day name and its two times in 12-hour form |

## Left out

- Reading the host (`getAdminUserId`) is not modelled: the host is always user 1, and every schedule belongs to it.
- Requests, responses, the database client and its transactions are replaced by method parameters and results. The reservation transaction is one atomic method, so concurrent requests are not modelled. The reschedule's two writes happen in sequence with no other request between them.
- Confirmation, cancellation and reschedule emails are left out, because their failure is only logged. `CreatePublicBooking` takes the failure as a parameter that has no effect.
- Time zones are opaque strings and times are whole minutes. `Date` parsing, `toISOString` and the local/UTC difference in the controllers are not modelled. A date is a day number. The day of the booking fetch is the minutes `[1440 * date, 1440 * date + 1440)`, whereas the slots endpoint ends it at 23:59:59.999.
- "Now" and "today" are parameters.
- Dates and times arrive as numbers, so an unparseable `date`, `time` or `newStartTime` (an invalid `Date` in the controllers) is not modelled.
- SlotGeneration.GenerateAvailableSlots: requires a positive duration, because the slot service's packing loop never ends otherwise.
- PublicApi.GetAvailableSlots: requires a positive duration of the active event type under the requested slug, when a date is given, for the same reason.
- EventTypes.NewEventType: the duration arrives as a number, so an unparseable `duration` (NaN from `parseInt`, which makes the insert fail with 500) is not modelled.
- EventTypes.NewEventType: the created row is active because the schema's default `isActive = true` is assumed; the schema is not part of this model.
- Override times are minutes of the day (`Option<int>`) rather than "HH:MM" text. Rules in the backend are minutes too. The editor and the summary work on "HH:MM" text, as the pages do.
- PublicApi.PublicEventType: states "none" only when no active event type has the slug. It looks up the first row with the slug, which the unique slug index makes the only one.
- Availability.ScheduleStore.UpdateDateOverride: the rule "blocked overrides have no times" is preserved only when the request carries the flag. `Availability.OmittedFlagCanLeaveTimes` shows why.
- Availability.ScheduleStore.DeleteSchedule: removes the schedule's overrides with it. The schema's cascade rule is assumed, because the schema is not part of this model. The rules of a schedule are stored inside the schedule row.
- Availability.ScheduleStore.AddDateOverride: the unknown schedule (a foreign-key failure, 500) and the duplicate date (400) are modelled from the schema's constraints. Clearing a time with an explicit `null` is not modelled.
- Event-type descriptions cannot be cleared with an explicit `null`. A missing slug on create is not modelled. The link to a schedule id that does not exist is not checked.
- Booking-question options are kept as a list. Their JSON serialisation is not modelled.
- `parseInt` is modelled for an optional sign and leading digits. Leading whitespace is not modelled. Lower-casing in slug generation covers ASCII letters only.
- EventTypeForm.AddQuestion: the blank question's options are the empty list.
- Read-only and delete endpoints outside the core are not modelled: `getPublicEventType`, `getAllEventTypes`, `getEventTypeById`, `deleteEventType`, `getBookingById`, `getAllSchedules`, `getScheduleById`, `deleteDateOverride`.
- The page components' rendering, navigation, network calls and form submission are not modelled.
