/** The helpers of the schedule editor: the table of selectable times,
    switching a weekday on and off, editing a weekday's times, and the
    rules a new schedule starts with. Rules here carry "HH:MM" text, as the
    editor does. */
module AvailabilityEdit {
  import opened Common
  import opened Entities

  // ---------------------------------------------------------------------
  // Time options

  datatype TimeOption = TimeOption(value: string, labelText: string)

  /** The hour on a 12-hour clock: 0 and 12 both read 12. */
  function Hour12(hour: nat): (h: nat)
    ensures 1 <= h <= 12
    ensures h % 12 == hour % 12
  {
    if hour % 12 == 0 then 12 else hour % 12
  }

  /** How the editor labels a time: "9:15am", "12:00pm". */
  function Label12(hour: nat, minute: nat): string
  {
    NatToString(Hour12(hour)) + ":" + Pad2(minute) + (if hour >= 12 then "pm" else "am")
  }

  /** Entry k of the table: minute 15 * k of the day. */
  function OptionAt(k: nat): TimeOption
    requires k < 96
  {
    TimeOption(Clock(15 * k), Label12(k / 4, 15 * (k % 4)))
  }

  /** The entry the loops build for hour i and minute j is entry 4 * i + j / 15. */
  lemma QuarterOption(i: nat, q: nat)
    requires i < 24 && q < 4
    ensures OptionAt(4 * i + q) ==
            TimeOption(Pad2(i) + ":" + Pad2(15 * q),
                       NatToString(Hour12(i)) + ":" + Pad2(15 * q) + (if i >= 12 then "pm" else "am"))
  {
    QuarterIndex(i, q);
    QuarterMinute(i, q);
  }

  lemma QuarterIndex(i: nat, q: nat)
    requires q < 4
    ensures (4 * i + q) / 4 == i && (4 * i + q) % 4 == q
  {
  }

  lemma QuarterMinute(i: nat, q: nat)
    requires q < 4
    ensures 15 * (4 * i + q) == 60 * i + 15 * q
    ensures (60 * i + 15 * q) / 60 == i && (60 * i + 15 * q) % 60 == 15 * q
  {
  }

  /** Appending entry k to a table that holds entries 0..k-1. */
  lemma AppendOption(options: seq<TimeOption>, n: nat, entry: TimeOption)
    requires n < 96 && |options| == n && entry == OptionAt(n)
    requires forall k :: 0 <= k < |options| ==> options[k] == OptionAt(k)
    ensures forall k :: 0 <= k < |options| + 1 ==> (options + [entry])[k] == OptionAt(k)
  {
  }

  /** `generateTimeOptions`: for every hour and every quarter of it, the
      zero-padded "HH:MM" value and its 12-hour label. Entry k stands for
      minute 15 * k of the day. */
  method GenerateTimeOptions() returns (options: seq<TimeOption>)
    ensures |options| == 96
    ensures forall k :: 0 <= k < 96 ==> options[k] == OptionAt(k)
  {
    options := [];
    var i := 0;
    while i < 24
      invariant 0 <= i <= 24 && |options| == 4 * i
      invariant forall k :: 0 <= k < |options| ==> options[k] == OptionAt(k)
    {
      var j := 0;
      ghost var q := 0;
      while j < 60
        invariant 0 <= q <= 4 && j == 15 * q && |options| == 4 * i + q
        invariant forall k :: 0 <= k < |options| ==> options[k] == OptionAt(k)
      {
        var hour := i;
        var minute := j;
        var ampm := if hour >= 12 then "pm" else "am";
        var h12 := if hour % 12 == 0 then 12 else hour % 12;
        var mSr := Pad2(minute);
        var value := Pad2(hour) + ":" + mSr;
        var text := NatToString(h12) + ":" + mSr + ampm;
        ghost var n := 4 * i + q;
        assert TimeOption(value, text) == OptionAt(n) by {
          QuarterOption(i, q);
        }
        AppendOption(options, n, TimeOption(value, text));
        options := options + [TimeOption(value, text)];
        j := j + 15;
        q := q + 1;
      }
      i := i + 1;
    }
  }

  /** The values read back as the minutes 0, 15, ..., 1425: strictly
      increasing in quarter-hour steps from "00:00" to "23:45". */
  lemma TimeOptionValues(options: seq<TimeOption>)
    requires |options| == 96
    requires forall k :: 0 <= k < 96 ==> options[k] == OptionAt(k)
    ensures forall k :: 0 <= k < 96 ==> IsClockText(options[k].value) && ParseClock(options[k].value) == 15 * k
    ensures options[0].value == "00:00" && options[95].value == "23:45"
  {
    forall k | 0 <= k < 96 ensures IsClockText(options[k].value) && ParseClock(options[k].value) == 15 * k {
      ClockRoundTrip(15 * k);
    }
    FirstAndLastQuarter();
  }

  lemma FirstAndLastQuarter()
    ensures Clock(0) == "00:00" && Clock(1425) == "23:45"
  {
    assert Pad2(0) == "00";
    assert NatToString(23) == "23" by {
      assert NatToString(2) == "2" && NatToString(3) == "3";
    }
    assert NatToString(45) == "45" by {
      assert NatToString(4) == "4" && NatToString(5) == "5";
    }
  }

  /** Labels: the hour modulo 12 with 0 shown as 12, then am before noon
      and pm from noon. */
  lemma TimeOptionLabels(hour: nat, minute: nat)
    requires hour < 24 && minute < 60
    ensures var text := Label12(hour, minute);
            && (hour == 0 || hour == 12 ==> text[..2] == "12")
            && (hour < 12 <==> text[|text| - 2..] == "am")
            && (hour >= 12 <==> text[|text| - 2..] == "pm")
  {
    var text := Label12(hour, minute);
    var suffix := if hour >= 12 then "pm" else "am";
    assert text[|text| - 2..] == suffix;
    if hour == 0 || hour == 12 {
      assert NatToString(12) == "12" by {
        assert NatToString(1) == "1" && NatToString(2) == "2";
      }
      assert text[..2] == NatToString(12);
    }
  }

  // ---------------------------------------------------------------------
  // Weekday rules

  predicate HasDay(rules: seq<RuleText>, day: int)
  {
    exists r :: r in rules && r.dayOfWeek == day
  }

  function DayTest(day: int): RuleText -> bool
  {
    (r: RuleText) => r.dayOfWeek == day
  }

  function OtherDayTest(day: int): RuleText -> bool
  {
    (r: RuleText) => r.dayOfWeek != day
  }

  /** `handleDayToggle(day)`: a day with rules loses all of them; a day
      without gets one 09:00-17:00 rule at the end. */
  function HandleDayToggle(rules: seq<RuleText>, day: int): (r: seq<RuleText>)
    ensures HasDay(r, day) <==> !HasDay(rules, day)
    ensures HasDay(rules, day) ==> forall x :: x in r <==> x in rules && x.dayOfWeek != day
    ensures !HasDay(rules, day) ==> r == rules + [RuleText(day, "09:00", "17:00")]
  {
    if HasDay(rules, day) then
      var kept := Filter(rules, OtherDayTest(day));
      assert forall x :: x in kept <==> x in rules && x.dayOfWeek != day by {
        forall x ensures x in kept <==> x in rules && x.dayOfWeek != day {
          FilterMembership(rules, OtherDayTest(day), x);
        }
      }
      kept
    else
      var added := rules + [RuleText(day, "09:00", "17:00")];
      assert added[|rules|] == RuleText(day, "09:00", "17:00");
      added
  }

  /** The rules of every other day, in order, are untouched. */
  lemma DayToggleKeepsOtherDays(rules: seq<RuleText>, day: int, other: int)
    requires other != day
    ensures Filter(HandleDayToggle(rules, day), DayTest(other)) == Filter(rules, DayTest(other))
  {
    if HasDay(rules, day) {
      FilterFuse(rules, OtherDayTest(day), DayTest(other));
      FilterAgree(rules, Both(OtherDayTest(day), DayTest(other)), DayTest(other));
    } else {
      FilterConcat(rules, [RuleText(day, "09:00", "17:00")], DayTest(other));
    }
  }

  /** Switching a day on and off again gives back the original rules. */
  lemma DayToggleTwiceRestores(rules: seq<RuleText>, day: int)
    requires !HasDay(rules, day)
    ensures HandleDayToggle(HandleDayToggle(rules, day), day) == rules
  {
    var added := rules + [RuleText(day, "09:00", "17:00")];
    assert HasDay(added, day) by {
      assert added[|rules|] in added;
    }
    FilterConcat(rules, [RuleText(day, "09:00", "17:00")], OtherDayTest(day));
    FilterAll(rules, OtherDayTest(day));
  }

  datatype TimeField = StartTime | EndTime

  /** `updateRuleTime(day, field, value)`: the field of every rule of that
      day takes the value; nothing else changes. */
  function UpdateRuleTime(rules: seq<RuleText>, day: int, field: TimeField, value: string): (r: seq<RuleText>)
    ensures |r| == |rules|
    ensures forall i :: 0 <= i < |rules| && rules[i].dayOfWeek != day ==> r[i] == rules[i]
    ensures forall i :: 0 <= i < |rules| && rules[i].dayOfWeek == day ==>
              && r[i].dayOfWeek == day
              && r[i].startTime == (if field == StartTime then value else rules[i].startTime)
              && r[i].endTime == (if field == EndTime then value else rules[i].endTime)
  {
    seq(|rules|, i requires 0 <= i < |rules| =>
      if rules[i].dayOfWeek != day then rules[i]
      else if field == StartTime then rules[i].(startTime := value)
      else rules[i].(endTime := value))
  }

  /** The rules a new schedule starts with: Monday to Friday, 09:00-17:00. */
  function DefaultRules(): (r: seq<RuleText>)
    ensures |r| == 5
    ensures forall i :: 0 <= i < 5 ==> r[i] == RuleText(i + 1, "09:00", "17:00")
  {
    seq(5, i requires 0 <= i < 5 => RuleText(i + 1, "09:00", "17:00"))
  }
}
