/** The one-line summary the schedule list shows for each schedule, and
    the 12-hour rendering of "HH:MM" text it uses. */
module AvailabilitySummary {
  import opened Common
  import opened Entities
  import opened AvailabilityEdit

  // ---------------------------------------------------------------------
  // Text helpers

  /** The text before the first ':' (all of it when there is none). */
  function BeforeColon(s: string): (r: string)
    ensures |r| <= |s| && r == s[..|r|]
    ensures ':' !in r
    ensures |r| < |s| ==> s[|r|] == ':'
    ensures ':' !in s ==> r == s
  {
    if s == [] || s[0] == ':' then [] else [s[0]] + BeforeColon(s[1..])
  }

  /** The second piece of `s.split(':')`; a string without ':' has none,
      and the template then prints "undefined". */
  function MinutesPiece(s: string): (r: string)
    ensures ':' in s ==> ':' !in r
  {
    var hours := BeforeColon(s);
    if |hours| < |s| then BeforeColon(s[|hours| + 1..]) else "undefined"
  }

  /** The leading run of decimal digits. */
  function LeadingDigits(s: string): (r: string)
    ensures |r| <= |s| && r == s[..|r|]
    ensures forall i :: 0 <= i < |r| ==> IsDigit(r[i])
    ensures |r| < |s| ==> !IsDigit(s[|r|])
  {
    if s == [] || !IsDigit(s[0]) then [] else [s[0]] + LeadingDigits(s[1..])
  }

  /** `parseInt` of a string: an optional sign and the digits after it;
      None is NaN. */
  function ParseIntPrefix(s: string): (r: Option<int>)
    ensures |s| > 0 && IsDigit(s[0]) ==> r.Some? && r.value >= 0
    ensures (forall i :: 0 <= i < |s| ==> !IsDigit(s[i])) ==> r.None?
  {
    var body := if |s| > 0 && (s[0] == '-' || s[0] == '+') then s[1..] else s;
    var digits := LeadingDigits(body);
    if digits == [] then None
    else
      var v: int := DigitsValue(digits);
      if |s| > 0 && s[0] == '-' then Some(-v) else Some(v)
  }

  /** `a % b` with the sign of `a`, as JavaScript computes it. */
  function TruncatedRemainder(a: int, b: int): (r: int)
    requires b > 0
    ensures -b < r < b
    ensures a >= 0 ==> r == a % b
    ensures a < 0 ==> r <= 0 && (a - r) % b == 0
  {
    if a >= 0 then a % b
    else
      MultipleHasNoRemainder(-((-a) / b), b);
      -((-a) % b)
  }

  /** A multiple of `b` leaves no remainder. */
  lemma {:induction false} MultipleHasNoRemainder(k: int, b: int)
    requires b > 0
    ensures (k * b) % b == 0
  {
    var x := k * b;
    var d := k - x / b;
    assert d * b == x % b;
    assert d >= 1 ==> d * b >= b;
    assert d <= -1 ==> d * b <= -b;
  }

  function IntToString(i: int): string
  {
    if i < 0 then "-" + NatToString(-i) else NatToString(i)
  }

  // ---------------------------------------------------------------------
  // formatTime

  /** The suffix formatTime gives: " PM" from hour 12 on, " AM" below it
      and when the hour does not parse. */
  function Meridiem(s: string): (r: string)
    ensures |r| == 3
  {
    var h := ParseIntPrefix(BeforeColon(s));
    if h.Some? && h.value >= 12 then " PM" else " AM"
  }

  /** The hour on a 12-hour clock: 12 for a multiple of 12 and for an hour
      that does not parse; a negative hour keeps its sign. */
  function Hour12Text(s: string): string
  {
    var h := ParseIntPrefix(BeforeColon(s));
    if h.None? || TruncatedRemainder(h.value, 12) == 0 then "12"
    else IntToString(TruncatedRemainder(h.value, 12))
  }

  /** `formatTime`: empty text stays empty; otherwise the 12-hour hour, ':',
      the minutes piece as written, and the AM/PM suffix. */
  function FormatTime(s: string): (r: string)
    ensures s == "" ==> r == ""
    ensures s != "" ==> |r| >= 3 && r[|r| - 3..] == Meridiem(s)
    ensures s != "" ==> |r| >= |Hour12Text(s)| + 1 && r[..|Hour12Text(s)|] == Hour12Text(s)
  {
    if s == "" then ""
    else
      var front := Hour12Text(s) + ":" + MinutesPiece(s);
      assert (front + Meridiem(s))[|front|..] == Meridiem(s);
      assert (front + Meridiem(s))[..|Hour12Text(s)|] == front[..|Hour12Text(s)|];
      front + Meridiem(s)
  }

  /** How a time of day should read in a summary: the hour on the 12-hour
      clock without padding, the minutes padded, then AM before noon and PM
      from noon on. */
  function SummaryClock(hour: nat, minute: nat): string
  {
    NatToString(Hour12(hour)) + ":" + Pad2(minute) + (if hour < 12 then " AM" else " PM")
  }

  lemma {:induction false} LeadingDigitsOfDigits(s: string)
    requires forall i :: 0 <= i < |s| ==> IsDigit(s[i])
    ensures LeadingDigits(s) == s
  {
    if s != [] {
      LeadingDigitsOfDigits(s[1..]);
    }
  }

  /** On zero-padded clock text, formatTime gives the 12-hour hour, the
      minutes exactly as written, and AM exactly before noon: hour 0 reads
      "12:.. AM" and hour 12 reads "12:.. PM". */
  lemma FormatClockText(hour: nat, minute: nat)
    requires hour < 24 && minute < 60
    ensures FormatTime(Pad2(hour) + ":" + Pad2(minute)) == SummaryClock(hour, minute)
  {
    var s := Pad2(hour) + ":" + Pad2(minute);
    ClockPieces(Pad2(hour), Pad2(minute));
    ParsePadded(hour);
    assert Hour12Text(s) == NatToString(Hour12(hour));
    assert Meridiem(s) == (if hour < 12 then " AM" else " PM");
  }

  /** Clock text splits at its colon into the hour and the minute text. */
  lemma ClockPieces(hh: string, mm: string)
    requires ':' !in hh && ':' !in mm
    ensures BeforeColon(hh + ":" + mm) == hh
    ensures MinutesPiece(hh + ":" + mm) == mm
  {
    var tail := ":" + mm;
    var s := hh + tail;
    assert hh + ":" + mm == s;
    BeforeColonOfPrefix(hh, tail);
    assert |hh| < |s|;
    assert s[|hh| + 1..] == mm;
    assert BeforeColon(mm) == mm;
  }

  lemma ParsePadded(hour: nat)
    requires hour < 24
    ensures ParseIntPrefix(Pad2(hour)) == Some(hour)
  {
    LeadingDigitsOfDigits(Pad2(hour));
  }

  lemma {:induction false} BeforeColonOfPrefix(a: string, b: string)
    requires ':' !in a && |b| > 0 && b[0] == ':'
    ensures BeforeColon(a + b) == a
  {
    if a != [] {
      assert (a + b)[1..] == a[1..] + b;
      BeforeColonOfPrefix(a[1..], b);
    } else {
      assert a + b == b;
    }
  }

  // ---------------------------------------------------------------------
  // getDaySummary

  const NO_AVAILABILITY: string := "No availability configured"
  const WEEKDAYS_SUMMARY: string := "Mon - Fri, 9:00 AM - 5:00 PM"
  const EVERY_DAY_SUMMARY: string := "Every day, 9:00 AM - 5:00 PM"

  /** The short name of a weekday; an index outside 0..6 joins as "". */
  function DayName(day: int): string
  {
    if 0 <= day < 7 then ["Sun", "Mon", "Tue", "Wed", "Thu", "Fri", "Sat"][day] else ""
  }

  function Join(parts: seq<string>, separator: string): (r: string)
    ensures parts == [] ==> r == ""
    ensures |parts| > 0 ==> |r| >= |parts[0]| && r[..|parts[0]|] == parts[0]
  {
    if parts == [] then ""
    else if |parts| == 1 then parts[0]
    else parts[0] + separator + Join(parts[1..], separator)
  }

  /** The day name of each rule, in rule order. */
  function DayNames(rules: seq<RuleText>): (r: seq<string>)
    ensures |r| == |rules| && forall i :: 0 <= i < |rules| ==> r[i] == DayName(rules[i].dayOfWeek)
  {
    seq(|rules|, i requires 0 <= i < |rules| => DayName(rules[i].dayOfWeek))
  }

  predicate HasRuleForDay(rules: seq<RuleText>, day: int)
  {
    exists i :: 0 <= i < |rules| && rules[i].dayOfWeek == day
  }

  /** `getDaySummary`: a fixed text for no rules, for five rules on neither
      Sunday nor Saturday and for seven rules, whatever their times;
      otherwise the day names in rule order, then the first rule's times. */
  function GetDaySummary(rules: Option<seq<RuleText>>): (r: string)
    ensures rules.None? || rules.value == [] ==> r == NO_AVAILABILITY
    ensures rules.Some? && |rules.value| == 5 && !HasRuleForDay(rules.value, 0) && !HasRuleForDay(rules.value, 6) ==>
              r == WEEKDAYS_SUMMARY
    ensures rules.Some? && |rules.value| == 7 ==> r == EVERY_DAY_SUMMARY
  {
    if rules.None? || rules.value == [] then NO_AVAILABILITY
    else
      var rs := rules.value;
      if |rs| == 5 && !HasRuleForDay(rs, 0) && !HasRuleForDay(rs, 6) then WEEKDAYS_SUMMARY
      else if |rs| == 7 then EVERY_DAY_SUMMARY
      else
        Join(DayNames(rs), ", ") + ", " + FormatTime(rs[0].startTime) + " - " + FormatTime(rs[0].endTime)
  }

  /** Outside the fixed cases the summary is the joined day names, then the
      first rule's start and end times. */
  lemma SummaryShape(rules: seq<RuleText>)
    requires |rules| > 0 && |rules| != 7
    requires |rules| != 5 || HasRuleForDay(rules, 0) || HasRuleForDay(rules, 6)
    ensures GetDaySummary(Some(rules)) ==
            Join(DayNames(rules), ", ") + ", " + FormatTime(rules[0].startTime) + " - " + FormatTime(rules[0].endTime)
  {
  }

  /** Outside the fixed cases the summary starts with the first rule's day name. */
  lemma SummaryStartsWithFirstDay(rules: seq<RuleText>)
    requires |rules| > 0 && |rules| != 7
    requires |rules| != 5 || HasRuleForDay(rules, 0) || HasRuleForDay(rules, 6)
    ensures |GetDaySummary(Some(rules))| >= |DayName(rules[0].dayOfWeek)|
    ensures GetDaySummary(Some(rules))[..|DayName(rules[0].dayOfWeek)|] == DayName(rules[0].dayOfWeek)
  {
    SummaryShape(rules);
    var joined := Join(DayNames(rules), ", ");
    var first := DayName(rules[0].dayOfWeek);
    assert DayNames(rules)[0] == first;
    assert |joined| >= |first| && joined[..|first|] == first;
    ConcatPrefix(joined, ", ", FormatTime(rules[0].startTime), " - ", FormatTime(rules[0].endTime), |first|);
  }

  /** Outside the fixed cases the summary ends with the first rule's
      formatted end time. */
  lemma SummaryEndsWithEndTime(rules: seq<RuleText>)
    requires |rules| > 0 && |rules| != 7
    requires |rules| != 5 || HasRuleForDay(rules, 0) || HasRuleForDay(rules, 6)
    ensures |GetDaySummary(Some(rules))| >= |FormatTime(rules[0].endTime)|
    ensures GetDaySummary(Some(rules))[|GetDaySummary(Some(rules))| - |FormatTime(rules[0].endTime)|..]
            == FormatTime(rules[0].endTime)
  {
    SummaryShape(rules);
    ConcatFive(Join(DayNames(rules), ", "), ", ", FormatTime(rules[0].startTime), " - ", FormatTime(rules[0].endTime));
  }

  /** Where the last part of a five-part text sits. */
  lemma ConcatFive(a: string, b: string, c: string, d: string, e: string)
    ensures (a + b + c + d + e)[|a + b + c + d + e| - |e|..] == e
  {
    assert a + b + c + d + e == (a + b + c + d) + e;
  }

  /** A five-part text starts with any prefix of its first part. */
  lemma ConcatPrefix(a: string, b: string, c: string, d: string, e: string, n: nat)
    requires n <= |a|
    ensures (a + b + c + d + e)[..n] == a[..n]
  {
    assert a + b + c + d + e == a + (b + c + d + e);
  }

  /** The Monday-to-Friday text does not look at the times: five rules for
      Monday to Friday read "9:00 AM - 5:00 PM" whatever their start and end. */
  lemma WeekdaySummaryIgnoresTimes(startText: string, endText: string)
    ensures GetDaySummary(Some(seq(5, i requires 0 <= i < 5 => RuleText(i + 1, startText, endText))))
            == WEEKDAYS_SUMMARY
  {
    var rs := seq(5, i requires 0 <= i < 5 => RuleText(i + 1, startText, endText));
    assert forall i :: 0 <= i < |rs| ==> rs[i].dayOfWeek == i + 1;
    assert !HasRuleForDay(rs, 0) && !HasRuleForDay(rs, 6);
  }

  /** A new schedule's rules are summarised as the Monday-to-Friday text. */
  lemma DefaultRulesSummary()
    ensures GetDaySummary(Some(DefaultRules())) == WEEKDAYS_SUMMARY
  {
    var rs := DefaultRules();
    assert !HasRuleForDay(rs, 0) && !HasRuleForDay(rs, 6);
  }

  /** A single rule outside the fixed cases reads as its day name, then
      both of its times on the 12-hour clock: a Saturday rule from "10:00"
      to "14:00" reads "Sat, 10:00 AM - 2:00 PM". */
  lemma SingleRuleSummary(day: int, startHour: nat, startMinute: nat, endHour: nat, endMinute: nat)
    requires startHour < 24 && startMinute < 60 && endHour < 24 && endMinute < 60
    ensures GetDaySummary(Some([RuleText(day, Pad2(startHour) + ":" + Pad2(startMinute),
                                           Pad2(endHour) + ":" + Pad2(endMinute))]))
         == DayName(day) + ", " + SummaryClock(startHour, startMinute) + " - " + SummaryClock(endHour, endMinute)
  {
    var startText := Pad2(startHour) + ":" + Pad2(startMinute);
    var endText := Pad2(endHour) + ":" + Pad2(endMinute);
    SingleRuleShape(RuleText(day, startText, endText));
    FormatClockText(startHour, startMinute);
    FormatClockText(endHour, endMinute);
  }

  lemma SingleRuleShape(rule: RuleText)
    ensures GetDaySummary(Some([rule])) ==
            DayName(rule.dayOfWeek) + ", " + FormatTime(rule.startTime) + " - " + FormatTime(rule.endTime)
  {
    SummaryShape([rule]);
    assert DayNames([rule]) == [DayName(rule.dayOfWeek)];
    assert Join(DayNames([rule]), ", ") == DayName(rule.dayOfWeek);
  }
}
