/** Shared vocabulary of the scheduler model: optional values, HTTP-style
    responses, the single admin account, clock text ("HH:MM"), day numbers
    and the list filter the controllers and pages use. */
module Common {

  datatype Option<T> = None | Some(value: T)

  /** What a controller sends back: a status code with a body, or a status
      code with an error message. */
  datatype Response<T> = Ok(code: int, body: T) | Err(code: int, message: string)

  /** The backend has one host; every lookup of "the admin user" yields this id. */
  const ADMIN_USER_ID: nat := 1

  const MINUTES_PER_DAY: int := 1440

  /** The timezone every fallback chain ends in. */
  const DEFAULT_TIMEZONE: string := "Asia/Kolkata"

  // ---------------------------------------------------------------------
  // Decimal text

  predicate IsDigit(c: char) { '0' <= c <= '9' }

  function DigitChar(n: nat): (c: char)
    requires n < 10
    ensures IsDigit(c) && DigitValue(c) == n
  {
    (48 + n) as char
  }

  function DigitValue(c: char): nat
    requires IsDigit(c)
  {
    (c as int - 48) as nat
  }

  /** `n.toString()` for a natural number. */
  function NatToString(n: nat): (s: string)
    ensures |s| >= 1
    ensures forall i :: 0 <= i < |s| ==> IsDigit(s[i])
    ensures n < 10 <==> |s| == 1
  {
    if n < 10 then [DigitChar(n)] else NatToString(n / 10) + [DigitChar(n % 10)]
  }

  /** The value of a non-empty run of decimal digits (most significant first). */
  function DigitsValue(s: string): nat
    requires forall i :: 0 <= i < |s| ==> IsDigit(s[i])
  {
    if s == [] then 0 else DigitsValue(s[..|s| - 1]) * 10 + DigitValue(s[|s| - 1])
  }

  lemma {:induction false} NatToStringRoundTrip(n: nat)
    ensures DigitsValue(NatToString(n)) == n
  {
    if n >= 10 {
      NatToStringRoundTrip(n / 10);
      var s := NatToString(n);
      assert s[..|s| - 1] == NatToString(n / 10);
    }
  }

  /** `n.toString().padStart(2, '0')`. */
  function Pad2(n: nat): (s: string)
    ensures n < 100 ==> |s| == 2
    ensures forall i :: 0 <= i < |s| ==> IsDigit(s[i])
    ensures DigitsValue(s) == n
  {
    NatToStringRoundTrip(n);
    if n < 10 then
      var s := ['0'] + NatToString(n);
      assert s[..|s| - 1] == ['0'];
      s
    else NatToString(n)
  }

  /** A time of day as zero-padded 24-hour text, "HH:MM". */
  function Clock(minuteOfDay: int): (s: string)
    requires 0 <= minuteOfDay < MINUTES_PER_DAY
    ensures |s| == 5 && s[2] == ':'
  {
    Pad2(minuteOfDay / 60) + ":" + Pad2(minuteOfDay % 60)
  }

  predicate IsClockText(s: string)
  {
    |s| == 5 && s[2] == ':' && IsDigit(s[0]) && IsDigit(s[1]) && IsDigit(s[3]) && IsDigit(s[4])
  }

  /** Reads "HH:MM" back as minutes after midnight. */
  function ParseClock(s: string): int
    requires IsClockText(s)
  {
    DigitsValue(s[..2]) * 60 + DigitsValue(s[3..])
  }

  lemma ClockRoundTrip(m: int)
    requires 0 <= m < MINUTES_PER_DAY
    ensures IsClockText(Clock(m)) && ParseClock(Clock(m)) == m
  {
    var s := Clock(m);
    assert s[..2] == Pad2(m / 60);
    assert s[3..] == Pad2(m % 60);
  }

  // ---------------------------------------------------------------------
  // Calendar: a date is a day number, day 0 being 1970-01-01 (a Thursday).

  /** 0 = Sunday ... 6 = Saturday, as `Date.getDay()` numbers them. */
  function DayOfWeek(day: int): (w: int)
    ensures 0 <= w < 7
  {
    (day + 4) % 7
  }

  /** The day number of a proleptic Gregorian date with month in 1..12. */
  function DaysFromCivil(year: int, month: int, dayOfMonth: int): int
    requires 1 <= month <= 12
  {
    var y := if month <= 2 then year - 1 else year;
    var era := y / 400;
    var yoe := y - era * 400;
    var mp := if month > 2 then month - 3 else month + 9;
    var doy := (153 * mp + 2) / 5 + dayOfMonth - 1;
    var doe := yoe * 365 + yoe / 4 - yoe / 100 + doy;
    era * 146097 + doe - 719468
  }

  /** The day numbers are anchored to the calendar: 1970-01-01 is day 0,
      and the first Sunday after it, 1970-01-04, has weekday 0. */
  lemma CalendarAnchor()
    ensures DaysFromCivil(1970, 1, 1) == 0
    ensures DayOfWeek(DaysFromCivil(1970, 1, 4)) == 0
    ensures DayOfWeek(DaysFromCivil(1970, 1, 5)) == 1
  {
  }

  /** `new Date(year, monthIndex, 1)`: the first day of a month whose index
      counts from 0 and may run outside 0..11 (it then rolls into the
      neighbouring years). */
  function FirstOfMonth(year: int, monthIndex: int): int
  {
    DaysFromCivil(year + monthIndex / 12, monthIndex % 12 + 1, 1)
  }

  // ---------------------------------------------------------------------
  // Lookups in a table

  /** The position of the row whose key is `k`, searching from the end
      (keys are unique in every table, so it is the only such row). */
  function IndexOfKey<T>(s: seq<T>, key: T -> nat, k: nat): (r: Option<nat>)
    ensures r.Some? ==> r.value < |s| && key(s[r.value]) == k
    ensures r.None? ==> forall i :: 0 <= i < |s| ==> key(s[i]) != k
  {
    if s == [] then None
    else if key(s[|s| - 1]) == k then Some(|s| - 1)
    else IndexOfKey(s[..|s| - 1], key, k)
  }

  /** `Array.prototype.find`: the first element that passes the test. */
  function Find<T(==,!new)>(s: seq<T>, p: T -> bool): (r: Option<T>)
    ensures r.Some? ==> r.value in s && p(r.value)
    ensures r.None? <==> forall x :: x in s ==> !p(x)
  {
    if s == [] then None
    else if p(s[0]) then Some(s[0])
    else
      assert forall x :: x in s <==> x == s[0] || x in s[1..];
      Find(s[1..], p)
  }

  // ---------------------------------------------------------------------
  // Order-preserving selection (`Array.prototype.filter`).

  function Filter<T>(s: seq<T>, p: T -> bool): (r: seq<T>)
    ensures |r| <= |s|
    ensures forall i :: 0 <= i < |r| ==> p(r[i])
  {
    if s == [] then []
    else if p(s[0]) then [s[0]] + Filter(s[1..], p)
    else Filter(s[1..], p)
  }

  /** `r` can be obtained from `s` by deleting elements, keeping the order of the rest. */
  predicate IsSubsequence<T(==)>(r: seq<T>, s: seq<T>)
    decreases |s|
  {
    if r == [] then true
    else if s == [] then false
    else (r[0] == s[0] && IsSubsequence(r[1..], s[1..])) || IsSubsequence(r, s[1..])
  }

  lemma {:induction false} FilterMembership<T>(s: seq<T>, p: T -> bool, x: T)
    ensures x in Filter(s, p) <==> x in s && p(x)
  {
    if s != [] {
      FilterMembership(s[1..], p, x);
      assert s == [s[0]] + s[1..];
    }
  }

  lemma {:induction false} FilterIsSubsequence<T>(s: seq<T>, p: T -> bool)
    ensures IsSubsequence(Filter(s, p), s)
  {
    if s != [] {
      FilterIsSubsequence(s[1..], p);
      var r := Filter(s, p);
      if p(s[0]) {
        assert r[0] == s[0] && r[1..] == Filter(s[1..], p);
      }
    }
  }

  /** Nothing is selected exactly when no element satisfies the condition. */
  lemma {:induction false} FilterNothing<T>(s: seq<T>, p: T -> bool)
    ensures Filter(s, p) == [] <==> forall x :: x in s ==> !p(x)
  {
    if s != [] {
      FilterNothing(s[1..], p);
      assert forall x :: x in s <==> x == s[0] || x in s[1..];
    }
  }

  /** A condition every element meets selects everything. */
  lemma {:induction false} FilterAll<T>(s: seq<T>, p: T -> bool)
    requires forall x :: x in s ==> p(x)
    ensures Filter(s, p) == s
  {
    if s != [] {
      assert forall x :: x in s[1..] ==> x in s;
      FilterAll(s[1..], p);
    }
  }

  /** A property of every pair of distinct positions survives selection. */
  lemma {:induction false} FilterKeepsPairwise<T>(s: seq<T>, p: T -> bool, rel: (T, T) -> bool)
    requires forall i, j :: 0 <= i < |s| && 0 <= j < |s| && i != j ==> rel(s[i], s[j])
    ensures forall i, j :: 0 <= i < |Filter(s, p)| && 0 <= j < |Filter(s, p)| && i != j ==>
                             rel(Filter(s, p)[i], Filter(s, p)[j])
  {
    if s != [] {
      FilterKeepsPairwise(s[1..], p, rel);
      var rest := Filter(s[1..], p);
      if p(s[0]) {
        var r := [s[0]] + rest;
        forall m | 0 <= m < |rest| ensures rel(s[0], rest[m]) && rel(rest[m], s[0]) {
          FilterMembership(s[1..], p, rest[m]);
          var n :| 0 <= n < |s[1..]| && s[1..][n] == rest[m];
          assert s[n + 1] == rest[m];
        }
        forall i, j | 0 <= i < |r| && 0 <= j < |r| && i != j ensures rel(r[i], r[j]) {
          if i > 0 && j > 0 {
            assert r[i] == rest[i - 1] && r[j] == rest[j - 1];
          } else if i == 0 {
            assert r[j] == rest[j - 1];
          } else {
            assert r[i] == rest[i - 1];
          }
        }
      }
    }
  }

  /** Selection distributes over concatenation. */
  lemma {:induction false} FilterConcat<T>(a: seq<T>, b: seq<T>, p: T -> bool)
    ensures Filter(a + b, p) == Filter(a, p) + Filter(b, p)
  {
    if a != [] {
      FilterConcat(a[1..], b, p);
      assert (a + b)[1..] == a[1..] + b;
    } else {
      assert a + b == b;
    }
  }

  /** Conditions that agree on every element select the same elements. */
  lemma {:induction false} FilterAgree<T>(s: seq<T>, p: T -> bool, q: T -> bool)
    requires forall x :: x in s ==> p(x) == q(x)
    ensures Filter(s, p) == Filter(s, q)
  {
    if s != [] {
      assert forall x :: x in s[1..] ==> x in s;
      FilterAgree(s[1..], p, q);
    }
  }

  /** The conjunction of two conditions. */
  function Both<T>(p: T -> bool, q: T -> bool): T -> bool
  {
    x => p(x) && q(x)
  }

  /** Filtering twice is filtering once by both conditions. */
  lemma {:induction false} FilterFuse<T>(s: seq<T>, p: T -> bool, q: T -> bool)
    ensures Filter(Filter(s, p), q) == Filter(s, Both(p, q))
  {
    if s != [] {
      FilterFuse(s[1..], p, q);
      if p(s[0]) {
        assert Filter(s, p) == [s[0]] + Filter(s[1..], p);
        assert Filter(s, p)[1..] == Filter(s[1..], p);
      }
    }
  }
}
