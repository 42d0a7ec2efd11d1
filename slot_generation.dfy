/** The slot pipeline of `generateAvailableSlots`: resolve the day's working
    periods from the weekly rules and the date overrides, pack fixed-length
    slots into each period, then drop the slots that overlap a booking, that
    break a buffer, or that have already started. The bookings of the day are
    an input (the database query that fetches them is outside the model). */
module SlotGeneration {
  import opened Common
  import opened Entities

  /** A working period of one day, minutes after midnight. */
  datatype Period = Period(start: int, end: int)

  /** A candidate slot: absolute start and end minutes and its "HH:MM" label. */
  datatype Slot = Slot(start: int, end: int, time: string)

  /** What the public endpoint returns for one slot. */
  datatype SlotView = SlotView(time: string, available: bool)

  // ---------------------------------------------------------------------
  // Step 3 and 4: working periods of the date

  function OnWeekdayOf(date: int): Rule -> bool
  {
    (rule: Rule) => rule.dayOfWeek == DayOfWeek(date)
  }

  /** The rules whose weekday is the date's weekday, in stored order. */
  function DayRules(rules: seq<Rule>, date: int): (r: seq<Rule>)
    ensures forall i :: 0 <= i < |r| ==> r[i].dayOfWeek == DayOfWeek(date)
    ensures forall rule :: rule in r <==> rule in rules && rule.dayOfWeek == DayOfWeek(date)
    ensures (forall rule :: rule in rules ==> rule.dayOfWeek != DayOfWeek(date)) ==> r == []
  {
    var r := Filter(rules, OnWeekdayOf(date));
    FilterNothing(rules, OnWeekdayOf(date));
    forall rule ensures rule in r <==> rule in rules && rule.dayOfWeek == DayOfWeek(date) {
      FilterMembership(rules, OnWeekdayOf(date), rule);
    }
    r
  }

  /** `dateOverrides.find(o => same date)`: the first override of the date. */
  function FindOverride(overrides: seq<DateOverride>, date: int): (r: Option<DateOverride>)
    ensures r.None? <==> forall o :: o in overrides ==> o.date != date
    ensures r.Some? ==> r.value in overrides && r.value.date == date
    ensures r.Some? ==> exists k :: 0 <= k < |overrides| && overrides[k] == r.value &&
                                    forall j :: 0 <= j < k ==> overrides[j].date != date
  {
    if overrides == [] then None
    else if overrides[0].date == date then Some(overrides[0])
    else
      var r := FindOverride(overrides[1..], date);
      assert forall o :: o in overrides <==> o == overrides[0] || o in overrides[1..];
      if r.Some? then
        var k :| 0 <= k < |overrides[1..]| && overrides[1..][k] == r.value &&
                 forall j :: 0 <= j < k ==> overrides[1..][j].date != date;
        assert overrides[k + 1] == r.value;
        r
      else r
  }

  /** The working periods of the date, or None when a non-blocked override
      lacks a time (the slot service then fails while splitting a null "HH:MM"). */
  function ResolvePeriods(rules: seq<Rule>, overrides: seq<DateOverride>, date: int): (r: Option<seq<Period>>)
    ensures DayRules(rules, date) == [] ==> r == Some([])
    ensures DayRules(rules, date) != [] && FindOverride(overrides, date).Some? ==>
              var o := FindOverride(overrides, date).value;
              if o.isBlocked then r == Some([])
              else if o.startTime.Some? && o.endTime.Some? then r == Some([Period(o.startTime.value, o.endTime.value)])
              else r == None
    ensures FindOverride(overrides, date).None? ==>
              r.Some? && |r.value| == |DayRules(rules, date)| &&
              forall i :: 0 <= i < |r.value| ==>
                r.value[i] == Period(DayRules(rules, date)[i].startTime, DayRules(rules, date)[i].endTime)
  {
    var dayRules := DayRules(rules, date);
    if dayRules == [] then Some([])
    else match FindOverride(overrides, date)
      case Some(o) =>
        if o.isBlocked then Some([])
        else if o.startTime.Some? && o.endTime.Some? then Some([Period(o.startTime.value, o.endTime.value)])
        else None
      case None =>
        var ps := seq(|dayRules|, i requires 0 <= i < |dayRules| => Period(dayRules[i].startTime, dayRules[i].endTime));
        Some(ps)
  }

  // ---------------------------------------------------------------------
  // Step 5: slot packing

  /** A slot of `duration` minutes starting at absolute minute `start`,
      labelled with its local time of day. */
  function MakeSlot(start: int, duration: int): Slot
  {
    Slot(start, start + duration, Clock(start % MINUTES_PER_DAY))
  }

  /** The slots the packing loop emits from `start` up to `stop`: it starts one
      every `duration` minutes while the slot still ends by `stop`. */
  function Pack(start: int, stop: int, duration: int): seq<Slot>
    requires duration > 0
    decreases stop - start
  {
    if start + duration <= stop then [MakeSlot(start, duration)] + Pack(start + duration, stop, duration) else []
  }

  /** The number of packed slots is floor((stop - start) / duration), and none
      when the period is empty or inverted. */
  lemma {:induction false} PackCount(start: int, stop: int, duration: int)
    requires duration > 0
    ensures |Pack(start, stop, duration)| == (if stop >= start then (stop - start) / duration else 0)
  {
    PackBounds(start, stop, duration);
    if stop >= start {
      DivisionByBounds(stop - start, duration, |Pack(start, stop, duration)|);
    }
  }

  /** The count without division: n whole durations fit, n + 1 do not. */
  lemma {:induction false} PackBounds(start: int, stop: int, duration: int)
    requires duration > 0
    ensures stop < start ==> |Pack(start, stop, duration)| == 0
    ensures stop >= start ==> |Pack(start, stop, duration)| * duration <= stop - start
    ensures stop >= start ==> stop - start < |Pack(start, stop, duration)| * duration + duration
    decreases stop - start
  {
    if start + duration <= stop {
      PackBounds(start + duration, stop, duration);
      var m := |Pack(start + duration, stop, duration)|;
      assert |Pack(start, stop, duration)| == m + 1;
      MultiplySuccessor(m, duration);
    } else {
      assert |Pack(start, stop, duration)| == 0;
    }
  }

  lemma MultiplySuccessor(m: int, d: int)
    ensures (m + 1) * d == m * d + d
  {
  }

  /** Euclidean division is pinned down by its bounds. */
  lemma DivisionByBounds(x: int, d: int, q: int)
    requires d > 0 && q * d <= x < q * d + d
    ensures x / d == q
  {
    var q' := x / d;
    var r' := x % d;
    assert x == q' * d + r' && 0 <= r' < d;
    assert (q' - q) * d == q' * d - q * d;
    WholeMultiples(q' - q, d);
  }

  /** A nonzero multiple of d is at least d away from zero. */
  lemma WholeMultiples(t: int, d: int)
    requires d > 0
    ensures t >= 1 ==> t * d >= d
    ensures t <= -1 ==> t * d <= -d
  {
    if t >= 1 {
      MultiplyMonotone(1, t, d);
    }
    if t <= -1 {
      MultiplyMonotone(t, -1, d);
    }
  }

  lemma MultiplyMonotone(a: int, b: int, d: int)
    requires a <= b && d > 0
    ensures a * d <= b * d
  {
    assert b * d - a * d == (b - a) * d;
  }

  /** Slot k of a packed period starts k durations after the period start,
      lasts one duration, ends by the period end, abuts slot k + 1, and is
      labelled with its start time of day. */
  lemma {:induction false} PackAt(start: int, stop: int, duration: int, k: int)
    requires duration > 0
    requires 0 <= k < |Pack(start, stop, duration)|
    ensures var s := Pack(start, stop, duration)[k];
            && s.start == start + k * duration
            && s.end == s.start + duration
            && s.end <= stop
            && s.time == Clock(s.start % MINUTES_PER_DAY)
    ensures k + 1 < |Pack(start, stop, duration)| ==>
              Pack(start, stop, duration)[k].end == Pack(start, stop, duration)[k + 1].start
    decreases stop - start
  {
    if k > 0 {
      PackAt(start + duration, stop, duration, k - 1);
      assert (k - 1) * duration + duration == k * duration;
    } else if k + 1 < |Pack(start, stop, duration)| {
      PackAt(start + duration, stop, duration, 0);
    }
  }

  /** The packing loop of one working period. */
  method PackPeriod(start: int, stop: int, duration: int) returns (slots: seq<Slot>)
    requires duration > 0
    ensures slots == Pack(start, stop, duration)
  {
    slots := [];
    var current := start;
    while current + duration <= stop
      invariant slots + Pack(current, stop, duration) == Pack(start, stop, duration)
      decreases stop - current
    {
      PackStep(current, stop, duration);
      AppendAssociates(slots, MakeSlot(current, duration), Pack(current + duration, stop, duration));
      slots := slots + [MakeSlot(current, duration)];
      current := current + duration;
    }
    assert Pack(current, stop, duration) == [];
  }

  /** One turn of the packing loop emits the first slot of what is left. */
  lemma PackStep(start: int, stop: int, duration: int)
    requires duration > 0 && start + duration <= stop
    ensures Pack(start, stop, duration) == [MakeSlot(start, duration)] + Pack(start + duration, stop, duration)
  {
  }

  lemma AppendAssociates<T>(front: seq<T>, x: T, back: seq<T>)
    ensures front + [x] + back == front + ([x] + back)
  {
  }

  /** The raw slots of the date: each period packed in turn, concatenated. */
  function RawSlots(date: int, duration: int, periods: seq<Period>): seq<Slot>
    requires duration > 0
  {
    if periods == [] then []
    else
      var last := periods[|periods| - 1];
      RawSlots(date, duration, periods[..|periods| - 1]) +
      Pack(date * MINUTES_PER_DAY + last.start, date * MINUTES_PER_DAY + last.end, duration)
  }

  method GenerateRawSlots(date: int, duration: int, periods: seq<Period>) returns (raw: seq<Slot>)
    requires duration > 0
    ensures raw == RawSlots(date, duration, periods)
  {
    raw := [];
    for i := 0 to |periods|
      invariant raw == RawSlots(date, duration, periods[..i])
    {
      var p := periods[i];
      var slots := PackPeriod(date * MINUTES_PER_DAY + p.start, date * MINUTES_PER_DAY + p.end, duration);
      assert periods[..i + 1][..i] == periods[..i] && periods[..i + 1][i] == p;
      assert RawSlots(date, duration, periods[..i + 1]) == RawSlots(date, duration, periods[..i]) + slots;
      raw := raw + slots;
    }
    assert periods[..|periods|] == periods;
  }

  // ---------------------------------------------------------------------
  // Steps 6 and 7: conflicts with the day's bookings; then the past

  /** Half-open overlap of a slot with a booking. */
  predicate Overlaps(slot: Slot, b: Booking)
  {
    slot.start < b.endTime && slot.end > b.startTime
  }

  predicate FreeOfBookings(slot: Slot, bookings: seq<Booking>)
  {
    forall b :: b in bookings ==> !Overlaps(slot, b)
  }

  /** The slot ends before the booking but within `bufferAfter` of its start,
      or starts after the booking but within `bufferBefore` of its end. */
  predicate BufferClash(slot: Slot, b: Booking, bufferBefore: int, bufferAfter: int)
  {
    || (slot.end <= b.startTime && slot.end + bufferAfter > b.startTime)
    || (b.endTime <= slot.start && b.endTime + bufferBefore > slot.start)
  }

  predicate KeepsBuffers(slot: Slot, bookings: seq<Booking>, bufferBefore: int, bufferAfter: int)
  {
    forall b :: b in bookings ==> !BufferClash(slot, b, bufferBefore, bufferAfter)
  }

  function FreeTest(bookings: seq<Booking>): Slot -> bool
  {
    (slot: Slot) => FreeOfBookings(slot, bookings)
  }

  function BufferTest(bookings: seq<Booking>, bufferBefore: int, bufferAfter: int): Slot -> bool
  {
    (slot: Slot) => KeepsBuffers(slot, bookings, bufferBefore, bufferAfter)
  }

  function FutureTest(now: int): Slot -> bool
  {
    (slot: Slot) => slot.start > now
  }

  /** A raw slot survives all three filters. */
  predicate Bookable(slot: Slot, et: EventType, bookings: seq<Booking>, now: int)
  {
    FreeOfBookings(slot, bookings) && KeepsBuffers(slot, bookings, et.bufferTimeBefore, et.bufferTimeAfter) && slot.start > now
  }

  /** The slots that survive the pipeline, before they are turned into views;
      None stands for the server error of a non-blocked override without a time. */
  function FinalSlots(et: EventType, rules: seq<Rule>, overrides: seq<DateOverride>, date: int,
                      bookings: seq<Booking>, now: int): Option<seq<Slot>>
    requires et.duration > 0
  {
    match ResolvePeriods(rules, overrides, date)
    case None => None
    case Some(periods) =>
      var raw := RawSlots(date, et.duration, periods);
      var free := Filter(raw, FreeTest(bookings));
      var buffered := Filter(free, BufferTest(bookings, et.bufferTimeBefore, et.bufferTimeAfter));
      Some(Filter(buffered, FutureTest(now)))
  }

  function Views(slots: seq<Slot>): (r: seq<SlotView>)
    ensures |r| == |slots|
    ensures forall i :: 0 <= i < |r| ==> r[i].time == slots[i].time && r[i].available
  {
    seq(|slots|, i requires 0 <= i < |slots| => SlotView(slots[i].time, true))
  }

  /** `generateAvailableSlots` with the day's confirmed bookings and the
      current instant as inputs. */
  method GenerateAvailableSlots(et: EventType, rules: seq<Rule>, overrides: seq<DateOverride>, date: int,
                                bookings: seq<Booking>, now: int) returns (r: Option<seq<SlotView>>)
    requires et.duration > 0
    ensures r.None? <==> FinalSlots(et, rules, overrides, date, bookings, now).None?
    ensures r.Some? ==> r.value == Views(FinalSlots(et, rules, overrides, date, bookings, now).value)
    ensures (forall rule :: rule in rules ==> rule.dayOfWeek != DayOfWeek(date)) ==> r == Some([])
    ensures FindOverride(overrides, date).Some? && FindOverride(overrides, date).value.isBlocked ==> r == Some([])
    ensures r.Some? ==> forall v :: v in r.value ==> v.available
  {
    var resolved := ResolvePeriods(rules, overrides, date);
    if resolved.None? {
      return None;
    }
    var raw := GenerateRawSlots(date, et.duration, resolved.value);
    var free := Filter(raw, FreeTest(bookings));
    var buffered := Filter(free, BufferTest(bookings, et.bufferTimeBefore, et.bufferTimeAfter));
    var final := Filter(buffered, FutureTest(now));
    r := Some(Views(final));
    if resolved.value == [] {
      assert raw == [] && final == [];
    }
    if forall rule :: rule in rules ==> rule.dayOfWeek != DayOfWeek(date) {
      NoRuleMeansNoSlots(et, rules, overrides, date, bookings, now);
    }
  }

  // ---------------------------------------------------------------------
  // Properties of the pipeline

  /** Without a rule for the weekday there is nothing to book, even when a
      non-blocked override exists for the date: the rule check comes first. */
  lemma NoRuleMeansNoSlots(et: EventType, rules: seq<Rule>, overrides: seq<DateOverride>, date: int,
                           bookings: seq<Booking>, now: int)
    requires et.duration > 0
    requires forall rule :: rule in rules ==> rule.dayOfWeek != DayOfWeek(date)
    ensures FinalSlots(et, rules, overrides, date, bookings, now) == Some([])
  {
  }

  /** A blocked override empties the date whatever the weekly rules say. */
  lemma BlockedDateMeansNoSlots(et: EventType, rules: seq<Rule>, overrides: seq<DateOverride>, date: int,
                                bookings: seq<Booking>, now: int, o: DateOverride)
    requires et.duration > 0
    requires o in overrides && o.date == date && o.isBlocked
    requires forall o' :: o' in overrides && o'.date == date ==> o' == o
    ensures FinalSlots(et, rules, overrides, date, bookings, now) == Some([])
  {
  }

  /** Every surviving slot is a raw slot that is free of the bookings, keeps
      both buffers and starts after now; every raw slot with those three
      properties survives; and the survivors keep the raw order. */
  lemma {:induction false} PipelineExact(et: EventType, rules: seq<Rule>, overrides: seq<DateOverride>, date: int,
                                         bookings: seq<Booking>, now: int)
    requires et.duration > 0
    requires ResolvePeriods(rules, overrides, date).Some?
    ensures var raw := RawSlots(date, et.duration, ResolvePeriods(rules, overrides, date).value);
            var final := FinalSlots(et, rules, overrides, date, bookings, now).value;
            && IsSubsequence(final, raw)
            && forall s :: s in final <==> s in raw && Bookable(s, et, bookings, now)
  {
    var raw := RawSlots(date, et.duration, ResolvePeriods(rules, overrides, date).value);
    var p := FreeTest(bookings);
    var q := BufferTest(bookings, et.bufferTimeBefore, et.bufferTimeAfter);
    var f := FutureTest(now);
    FilterFuse(raw, p, q);
    FilterFuse(raw, Both(p, q), f);
    var all := Both(Both(p, q), f);
    var final := FinalSlots(et, rules, overrides, date, bookings, now).value;
    assert final == Filter(raw, all);
    FilterIsSubsequence(raw, all);
    forall s ensures s in final <==> s in raw && Bookable(s, et, bookings, now) {
      FilterMembership(raw, all, s);
    }
  }

  /** The gap rule the two filters enforce together: every surviving slot
      ends at least `bufferTimeAfter` before each booking starts, or starts
      at least `bufferTimeBefore` after it ends. */
  lemma SurvivorsKeepTheirDistance(et: EventType, rules: seq<Rule>, overrides: seq<DateOverride>, date: int,
                                   bookings: seq<Booking>, now: int)
    requires et.duration > 0
    requires FinalSlots(et, rules, overrides, date, bookings, now).Some?
    ensures forall s, b :: s in FinalSlots(et, rules, overrides, date, bookings, now).value && b in bookings ==>
              s.end + et.bufferTimeAfter <= b.startTime || b.endTime + et.bufferTimeBefore <= s.start
    ensures forall s :: s in FinalSlots(et, rules, overrides, date, bookings, now).value ==> s.start > now
  {
    PipelineExact(et, rules, overrides, date, bookings, now);
  }

  /** A slot that overlaps any of the day's bookings (in particular the
      booking made for that very slot) is not offered. */
  lemma BookedSlotDisappears(et: EventType, rules: seq<Rule>, overrides: seq<DateOverride>, date: int,
                             bookings: seq<Booking>, now: int, slot: Slot, b: Booking)
    requires et.duration > 0
    requires FinalSlots(et, rules, overrides, date, bookings, now).Some?
    requires b in bookings && Overlaps(slot, b)
    ensures slot !in FinalSlots(et, rules, overrides, date, bookings, now).value
  {
    PipelineExact(et, rules, overrides, date, bookings, now);
  }

  /** A slot label reads back as the slot's local time of day. */
  lemma LabelIsStartTime(start: int, stop: int, duration: int, k: int)
    requires duration > 0
    requires 0 <= k < |Pack(start, stop, duration)|
    ensures var s := Pack(start, stop, duration)[k];
            IsClockText(s.time) && ParseClock(s.time) == s.start % MINUTES_PER_DAY
  {
    PackAt(start, stop, duration, k);
    ClockRoundTrip(Pack(start, stop, duration)[k].start % MINUTES_PER_DAY);
  }
}
