/** The booking table and the operations that change it: the public
    reservation (its transaction: conflict read, then insert), cancellation,
    rescheduling, plus the admin list filter and the dashboard counts.
    The table keeps one invariant: no two CONFIRMED bookings of the same
    event type overlap as half-open intervals [startTime, endTime). */
module Bookings {
  import opened Common
  import opened Entities

  // ---------------------------------------------------------------------
  // Conflicts

  /** Half-open intervals [s1, e1) and [s2, e2) share a minute. */
  predicate IntervalsOverlap(s1: int, e1: int, s2: int, e2: int)
  {
    s1 < e2 && s2 < e1
  }

  /** The three-disjunct conflict condition of the booking queries: the
      booking covers the new start, covers the new end, or lies inside the
      new interval. It agrees with the half-open overlap test whenever both
      intervals have positive length, and it never misses an overlap. */
  function Conflicts(b: Booking, start: int, end: int): (r: bool)
    ensures IntervalsOverlap(b.startTime, b.endTime, start, end) ==> r
    ensures start < end && b.startTime < b.endTime ==> (r <==> IntervalsOverlap(b.startTime, b.endTime, start, end))
  {
    || (b.startTime <= start && b.endTime > start)
    || (b.startTime < end && b.endTime >= end)
    || (b.startTime >= start && b.endTime <= end)
  }

  /** With a zero-length request the query reports a conflict that the
      half-open test does not see. */
  lemma ZeroLengthRequestDiffers()
    ensures var b := Booking(0, 0, 0, "", "", 600, 630, "", Confirmed, None, None, []);
            Conflicts(b, 600, 600) && !IntervalsOverlap(600, 630, 600, 600)
  {
  }

  /** Some CONFIRMED booking of the event type (other than the one with id
      `exclude`, when given) conflicts with [start, end). */
  predicate HasConflict(bs: seq<Booking>, eventTypeId: nat, start: int, end: int, exclude: Option<nat>)
  {
    exists i :: 0 <= i < |bs| && bs[i].eventTypeId == eventTypeId && bs[i].status == Confirmed &&
                (exclude.None? || bs[i].id != exclude.value) && Conflicts(bs[i], start, end)
  }

  /** The ledger invariant. */
  predicate NoConfirmedOverlap(bs: seq<Booking>)
  {
    forall i, j :: 0 <= i < |bs| && 0 <= j < |bs| && i != j &&
                   bs[i].status == Confirmed && bs[j].status == Confirmed &&
                   bs[i].eventTypeId == bs[j].eventTypeId ==>
                     !IntervalsOverlap(bs[i].startTime, bs[i].endTime, bs[j].startTime, bs[j].endTime)
  }

  predicate UniqueIds(bs: seq<Booking>)
  {
    forall i, j :: 0 <= i < |bs| && 0 <= j < |bs| && i != j ==> bs[i].id != bs[j].id
  }

  /** Adding a CONFIRMED booking that the conflict query does not object to
      keeps the invariant. */
  lemma AppendKeepsNoOverlap(bs: seq<Booking>, b: Booking)
    requires NoConfirmedOverlap(bs)
    requires b.status == Confirmed ==> !HasConflict(bs, b.eventTypeId, b.startTime, b.endTime, None)
    ensures NoConfirmedOverlap(bs + [b])
  {
    var bs' := bs + [b];
    forall i, j | 0 <= i < |bs'| && 0 <= j < |bs'| && i != j &&
                  bs'[i].status == Confirmed && bs'[j].status == Confirmed &&
                  bs'[i].eventTypeId == bs'[j].eventTypeId
      ensures !IntervalsOverlap(bs'[i].startTime, bs'[i].endTime, bs'[j].startTime, bs'[j].endTime)
    {
      if j == |bs| {
        assert !Conflicts(bs[i], b.startTime, b.endTime);
      } else if i == |bs| {
        assert !Conflicts(bs[j], b.startTime, b.endTime);
      }
    }
  }

  /** Replacing a booking by one that is not CONFIRMED keeps the invariant. */
  lemma ReleaseKeepsNoOverlap(bs: seq<Booking>, k: int, b: Booking)
    requires NoConfirmedOverlap(bs) && 0 <= k < |bs| && b.status != Confirmed
    ensures NoConfirmedOverlap(bs[k := b])
  {
  }

  /** Two reservations of the same positive-length interval: once the first
      is in the table, the second one's conflict query fires. */
  lemma SecondReservationConflicts(bs: seq<Booking>, b: Booking)
    requires b.status == Confirmed && b.startTime < b.endTime
    ensures HasConflict(bs + [b], b.eventTypeId, b.startTime, b.endTime, None)
  {
    assert (bs + [b])[|bs|] == b;
  }

  /** The row with the given id, by position. */
  function IndexOf(bs: seq<Booking>, id: nat): (r: Option<nat>)
    ensures r.Some? ==> r.value < |bs| && bs[r.value].id == id
    ensures r.None? ==> forall i :: 0 <= i < |bs| ==> bs[i].id != id
  {
    IndexOfKey(bs, (b: Booking) => b.id, id)
  }

  /** The row after cancellation: status CANCELLED and the given reason
      (an absent reason leaves the stored one, as an undefined field does). */
  function CancelledBooking(b: Booking, reason: Option<string>): (r: Booking)
    ensures r.status == Cancelled
    ensures r.cancellationReason == if reason.Some? then reason else b.cancellationReason
    ensures r.(status := b.status, cancellationReason := b.cancellationReason) == b
  {
    b.(status := Cancelled, cancellationReason := if reason.Some? then reason else b.cancellationReason)
  }

  // ---------------------------------------------------------------------
  // Listing and counting

  /** The `where` object `getAllBookings` builds. */
  datatype Where = Where(userId: nat, status: Option<Status>, startFrom: Option<int>, pastBefore: Option<int>)

  predicate Matches(w: Where, b: Booking)
  {
    && b.userId == w.userId
    && (w.status.Some? ==> b.status == w.status.value)
    && (w.startFrom.Some? ==> b.startTime >= w.startFrom.value)
    && (w.pastBefore.Some? ==> b.startTime < w.pastBefore.value || b.status == Cancelled || b.status == Rescheduled)
  }

  /** Builds the filter step by step: the status, then either the upcoming
      window (which overrides the status with CONFIRMED) or the past
      disjunction. */
  method BuildWhere(userId: nat, status: Option<Status>, upcoming: bool, past: bool, now: int) returns (w: Where)
    ensures forall b :: Matches(w, b) <==>
      && b.userId == userId
      && (if upcoming then b.status == Confirmed && b.startTime >= now
          else && (status.Some? ==> b.status == status.value)
               && (past ==> b.startTime < now || b.status == Cancelled || b.status == Rescheduled))
  {
    w := Where(userId, None, None, None);
    if status.Some? {
      w := w.(status := status);
    }
    if upcoming {
      w := w.(startFrom := Some(now));
      w := w.(status := Some(Confirmed));
    } else if past {
      w := w.(pastBefore := Some(now));
    }
  }

  /** The rows the admin list shows for the given query parameters. */
  predicate Listed(status: Option<Status>, upcoming: bool, past: bool, now: int, b: Booking)
  {
    && b.userId == ADMIN_USER_ID
    && (if upcoming then b.status == Confirmed && b.startTime >= now
        else && (status.Some? ==> b.status == status.value)
             && (past ==> b.startTime < now || b.status == Cancelled || b.status == Rescheduled))
  }

  function ListTest(status: Option<Status>, upcoming: bool, past: bool, now: int): Booking -> bool
  {
    (b: Booking) => Listed(status, upcoming, past, now, b)
  }

  function MatchTest(w: Where): Booking -> bool
  {
    (b: Booking) => Matches(w, b)
  }

  /** `a` may come before `b` in the requested order of start times. */
  predicate InOrder(a: Booking, b: Booking, ascending: bool)
  {
    if ascending then a.startTime <= b.startTime else a.startTime >= b.startTime
  }

  predicate SortedByStart(bs: seq<Booking>, ascending: bool)
  {
    forall i, j :: 0 <= i < j < |bs| ==> InOrder(bs[i], bs[j], ascending)
  }

  function InsertByStart(b: Booking, bs: seq<Booking>, ascending: bool): (r: seq<Booking>)
    ensures multiset(r) == multiset(bs) + multiset{b}
  {
    if bs == [] || InOrder(b, bs[0], ascending) then [b] + bs
    else
      assert bs == [bs[0]] + bs[1..];
      [bs[0]] + InsertByStart(b, bs[1..], ascending)
  }

  lemma {:induction false} InsertKeepsSorted(b: Booking, bs: seq<Booking>, ascending: bool)
    requires SortedByStart(bs, ascending)
    ensures SortedByStart(InsertByStart(b, bs, ascending), ascending)
  {
    if bs != [] && !InOrder(b, bs[0], ascending) {
      InsertKeepsSorted(b, bs[1..], ascending);
      InsertKeepsLowerBound(bs[0], b, bs[1..], ascending);
      var rest := InsertByStart(b, bs[1..], ascending);
      assert InsertByStart(b, bs, ascending) == [bs[0]] + rest;
    }
  }

  /** Inserting an element that comes after `x` into a list whose elements
      all come after `x` gives such a list again. */
  lemma {:induction false} InsertKeepsLowerBound(x: Booking, b: Booking, bs: seq<Booking>, ascending: bool)
    requires InOrder(x, b, ascending)
    requires forall k :: 0 <= k < |bs| ==> InOrder(x, bs[k], ascending)
    ensures forall k :: 0 <= k < |InsertByStart(b, bs, ascending)| ==>
              InOrder(x, InsertByStart(b, bs, ascending)[k], ascending)
  {
    if bs != [] && !InOrder(b, bs[0], ascending) {
      InsertKeepsLowerBound(x, b, bs[1..], ascending);
    }
  }

  /** The database's `orderBy: { startTime }` (ties in some order): a
      permutation of the rows ... */
  function SortByStart(bs: seq<Booking>, ascending: bool): (r: seq<Booking>)
    ensures multiset(r) == multiset(bs)
  {
    if bs == [] then []
    else
      assert bs == [bs[0]] + bs[1..];
      InsertByStart(bs[0], SortByStart(bs[1..], ascending), ascending)
  }

  /** ... in the requested order of start times. */
  lemma {:induction false} SortByStartSorted(bs: seq<Booking>, ascending: bool)
    ensures SortedByStart(SortByStart(bs, ascending), ascending)
  {
    if bs != [] {
      SortByStartSorted(bs[1..], ascending);
      InsertKeepsSorted(bs[0], SortByStart(bs[1..], ascending), ascending);
    }
  }

  function CountWhere(bs: seq<Booking>, p: Booking -> bool): nat
  {
    |Filter(bs, p)|
  }

  /** Two conditions that never hold together and both imply a third
      select at most as many rows as the third. */
  lemma {:induction false} DisjointCountsWithin(bs: seq<Booking>, p: Booking -> bool, q: Booking -> bool, r: Booking -> bool)
    requires forall b :: !(p(b) && q(b))
    requires forall b :: p(b) ==> r(b)
    requires forall b :: q(b) ==> r(b)
    ensures CountWhere(bs, p) + CountWhere(bs, q) <= CountWhere(bs, r)
  {
    if bs != [] {
      DisjointCountsWithin(bs[1..], p, q, r);
    }
  }

  lemma {:induction false} CountWithin(bs: seq<Booking>, p: Booking -> bool, r: Booking -> bool)
    requires forall b :: p(b) ==> r(b)
    ensures CountWhere(bs, p) <= CountWhere(bs, r)
  {
    if bs != [] {
      CountWithin(bs[1..], p, r);
    }
  }

  datatype Stats = Stats(upcoming: nat, today: nat, total: nat, cancelled: nat)

  function UpcomingTest(userId: nat, now: int): Booking -> bool
  {
    (b: Booking) => b.userId == userId && b.status == Confirmed && b.startTime > now
  }

  function TodayTest(userId: nat, startOfToday: int): Booking -> bool
  {
    (b: Booking) => b.userId == userId && b.status == Confirmed &&
                    startOfToday <= b.startTime <= startOfToday + MINUTES_PER_DAY - 1
  }

  function OwnerTest(userId: nat): Booking -> bool
  {
    (b: Booking) => b.userId == userId
  }

  function CancelledTest(userId: nat): Booking -> bool
  {
    (b: Booking) => b.userId == userId && b.status == Cancelled
  }

  /** The dashboard counts. Upcoming (CONFIRMED, strictly after now) and
      cancelled bookings are disjoint parts of the total, and today's
      CONFIRMED bookings are part of it too. */
  function BookingStats(bs: seq<Booking>, userId: nat, now: int, startOfToday: int): (r: Stats)
    ensures r.upcoming + r.cancelled <= r.total
    ensures r.today <= r.total
    ensures r.total == |Filter(bs, OwnerTest(userId))|
    ensures r.upcoming == |Filter(bs, UpcomingTest(userId, now))|
    ensures r.today == |Filter(bs, TodayTest(userId, startOfToday))|
    ensures r.cancelled == |Filter(bs, CancelledTest(userId))|
  {
    DisjointCountsWithin(bs, UpcomingTest(userId, now), CancelledTest(userId), OwnerTest(userId));
    CountWithin(bs, TodayTest(userId, startOfToday), OwnerTest(userId));
    Stats(CountWhere(bs, UpcomingTest(userId, now)),
          CountWhere(bs, TodayTest(userId, startOfToday)),
          CountWhere(bs, OwnerTest(userId)),
          CountWhere(bs, CancelledTest(userId)))
  }

  /** The list's upcoming filter keeps a CONFIRMED booking that starts right
      now; the dashboard's upcoming count does not. */
  lemma UpcomingListAndCountDiffer(now: int)
    ensures var b := Booking(1, 1, ADMIN_USER_ID, "", "", now, now + 30, "", Confirmed, None, None, []);
            Matches(Where(ADMIN_USER_ID, Some(Confirmed), Some(now), None), b) &&
            !UpcomingTest(ADMIN_USER_ID, now)(b)
  {
  }

  // ---------------------------------------------------------------------
  // The table

  class Ledger {
    var bookings: seq<Booking>
    var nextId: nat

    ghost predicate Valid()
      reads this
    {
      && (forall i :: 0 <= i < |bookings| ==> bookings[i].id < nextId)
      && UniqueIds(bookings)
      && NoConfirmedOverlap(bookings)
    }

    constructor ()
      ensures Valid() && bookings == [] && nextId == 1
    {
      bookings := [];
      nextId := 1;
    }

    /** The reservation transaction of `createPublicBooking`: look for a
        conflicting CONFIRMED booking of the event type; if there is one,
        write nothing (SLOT_UNAVAILABLE), else insert the new CONFIRMED row. */
    method Reserve(eventTypeId: nat, userId: nat, name: string, email: string, start: int, end: int,
                   timezone: string, answers: seq<Answer>) returns (booking: Option<Booking>)
      requires Valid()
      modifies this
      ensures Valid()
      ensures booking.None? <==> HasConflict(old(bookings), eventTypeId, start, end, None)
      ensures booking.None? ==> bookings == old(bookings) && nextId == old(nextId)
      ensures booking.Some? ==>
                && booking.value == Booking(old(nextId), eventTypeId, userId, name, email, start, end,
                                            timezone, Confirmed, None, None, answers)
                && bookings == old(bookings) + [booking.value]
                && nextId == old(nextId) + 1
    {
      if HasConflict(bookings, eventTypeId, start, end, None) {
        return None;
      }
      var b := Booking(nextId, eventTypeId, userId, name, email, start, end, timezone, Confirmed, None, None, answers);
      AppendKeepsNoOverlap(bookings, b);
      bookings := bookings + [b];
      nextId := nextId + 1;
      booking := Some(b);
    }

    /** `cancelBooking`: whatever its status, the row becomes CANCELLED with
        the given reason; an unknown id makes the update throw (500). */
    method Cancel(id: nat, reason: Option<string>) returns (r: Response<Booking>)
      requires Valid()
      modifies this
      ensures Valid()
      ensures nextId == old(nextId)
      ensures IndexOf(old(bookings), id).None? ==>
                r == Err(500, "Failed to cancel booking") && bookings == old(bookings)
      ensures IndexOf(old(bookings), id).Some? ==>
                var k := IndexOf(old(bookings), id).value;
                && bookings == old(bookings)[k := CancelledBooking(old(bookings)[k], reason)]
                && r == Ok(200, bookings[k])
    {
      var k := IndexOf(bookings, id);
      if k.None? {
        return Err(500, "Failed to cancel booking");
      }
      var b := CancelledBooking(bookings[k.value], reason);
      ReleaseKeepsNoOverlap(bookings, k.value, b);
      bookings := bookings[k.value := b];
      r := Ok(200, b);
    }

    /** `rescheduleBooking`: the new interval starts at `newStart` and lasts
        the booking's event type duration; a conflict with another CONFIRMED
        booking of the event type is refused (400) with no change; otherwise
        the original becomes RESCHEDULED and a CONFIRMED copy at the new time,
        linked back to it, is added. */
    method Reschedule(id: nat, newStart: int, timezone: string, eventTypes: seq<EventType>)
      returns (r: Response<Booking>)
      requires Valid()
      modifies this
      ensures Valid()
      ensures IndexOf(old(bookings), id).None? ==>
                r == Err(404, "Booking not found") && bookings == old(bookings) && nextId == old(nextId)
      ensures IndexOf(old(bookings), id).Some? ==>
                var k := IndexOf(old(bookings), id).value;
                var original := old(bookings)[k];
                match EventTypeById(eventTypes, original.eventTypeId)
                case None =>
                  r == Err(500, "Failed to reschedule booking") && bookings == old(bookings) && nextId == old(nextId)
                case Some(et) =>
                  var newEnd := newStart + et.duration;
                  if HasConflict(old(bookings), original.eventTypeId, newStart, newEnd, Some(id)) then
                    r == Err(400, "Time slot is no longer available") && bookings == old(bookings) && nextId == old(nextId)
                  else
                    && r.Ok? && r.code == 200
                    && r.body == Booking(old(nextId), original.eventTypeId, original.userId,
                                         original.bookerName, original.bookerEmail, newStart, newEnd,
                                         if timezone != "" then timezone else original.timezone,
                                         Confirmed, Some(id), None, [])
                    && bookings == old(bookings)[k := original.(status := Rescheduled)] + [r.body]
                    && nextId == old(nextId) + 1
    {
      var k := IndexOf(bookings, id);
      if k.None? {
        return Err(404, "Booking not found");
      }
      var original := bookings[k.value];
      var et := EventTypeById(eventTypes, original.eventTypeId);
      if et.None? {
        return Err(500, "Failed to reschedule booking");
      }
      var newEnd := newStart + et.value.duration;
      if HasConflict(bookings, original.eventTypeId, newStart, newEnd, Some(id)) {
        return Err(400, "Time slot is no longer available");
      }
      var moved := original.(status := Rescheduled);
      var successor := Booking(nextId, original.eventTypeId, original.userId, original.bookerName,
                               original.bookerEmail, newStart, newEnd,
                               if timezone != "" then timezone else original.timezone,
                               Confirmed, Some(id), None, []);
      RescheduleKeepsIds(bookings, nextId, k.value, successor);
      RescheduleKeepsNoOverlap(bookings, k.value, successor);
      bookings := bookings[k.value := moved];
      bookings := bookings + [successor];
      nextId := nextId + 1;
      r := Ok(200, successor);
    }

    /** `getAllBookings`: the rows the built filter selects, ascending by
        start for the upcoming list and descending otherwise. */
    method GetAllBookings(status: Option<Status>, upcoming: bool, past: bool, now: int)
      returns (r: seq<Booking>)
      ensures SortedByStart(r, upcoming)
      ensures multiset(r) == multiset(Filter(bookings, ListTest(status, upcoming, past, now)))
      ensures forall b :: b in r <==> b in bookings && Listed(status, upcoming, past, now, b)
    {
      var w := BuildWhere(ADMIN_USER_ID, status, upcoming, past, now);
      var selected := Filter(bookings, MatchTest(w));
      FilterAgree(bookings, MatchTest(w), ListTest(status, upcoming, past, now));
      r := SortByStart(selected, upcoming);
      SortByStartSorted(selected, upcoming);
      forall b ensures b in r <==> b in bookings && Listed(status, upcoming, past, now, b) {
        assert b in r <==> b in multiset(r);
        assert b in selected <==> b in multiset(selected);
        FilterMembership(bookings, MatchTest(w), b);
      }
    }
  }

  /** The successor row takes the next id, so ids stay unique and below
      the counter. */
  lemma RescheduleKeepsIds(bs: seq<Booking>, nextId: nat, k: int, successor: Booking)
    requires UniqueIds(bs) && 0 <= k < |bs| && successor.id == nextId
    requires forall i :: 0 <= i < |bs| ==> bs[i].id < nextId
    ensures var bs' := bs[k := bs[k].(status := Rescheduled)] + [successor];
            && UniqueIds(bs')
            && forall i :: 0 <= i < |bs'| ==> bs'[i].id < nextId + 1
  {
    var bs' := bs[k := bs[k].(status := Rescheduled)] + [successor];
    assert forall i :: 0 <= i < |bs| ==> bs'[i].id == bs[i].id;
  }

  /** The success path of a reschedule keeps the invariant: the moved row
      stops being CONFIRMED, and the only row the conflict query skipped is
      that one. */
  lemma RescheduleKeepsNoOverlap(bs: seq<Booking>, k: int, successor: Booking)
    requires NoConfirmedOverlap(bs) && UniqueIds(bs) && 0 <= k < |bs|
    requires successor.eventTypeId == bs[k].eventTypeId
    requires !HasConflict(bs, successor.eventTypeId, successor.startTime, successor.endTime, Some(bs[k].id))
    ensures NoConfirmedOverlap(bs[k := bs[k].(status := Rescheduled)] + [successor])
  {
    var moved := bs[k := bs[k].(status := Rescheduled)];
    ReleaseKeepsNoOverlap(bs, k, bs[k].(status := Rescheduled));
    forall i | 0 <= i < |moved| && moved[i].eventTypeId == successor.eventTypeId && moved[i].status == Confirmed
      ensures !Conflicts(moved[i], successor.startTime, successor.endTime)
    {
      assert i != k && moved[i] == bs[i] && bs[i].id != bs[k].id;
    }
    AppendKeepsNoOverlap(moved, successor);
  }
}
