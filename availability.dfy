/** The availability-schedule table with its date overrides, and the admin
    operations that write them. Every schedule belongs to the single host;
    at most one schedule per user is the default one, overrides point at an
    existing schedule and a schedule has at most one override per date. */
module Availability {
  import opened Common
  import opened Entities

  predicate AtMostOneDefault(ss: seq<Schedule>)
  {
    forall i, j :: 0 <= i < |ss| && 0 <= j < |ss| && i != j && ss[i].userId == ss[j].userId ==>
                     !(ss[i].isDefault && ss[j].isDefault)
  }

  /** Whether `updateMany` demotes row `s`: a default schedule of the user,
      other than the excluded id. */
  predicate Demotes(s: Schedule, userId: nat, except: Option<nat>)
  {
    s.userId == userId && s.isDefault && (except.None? || s.id != except.value)
  }

  /** The table after "unset the other defaults of this user". */
  function Demoted(ss: seq<Schedule>, userId: nat, except: Option<nat>): (r: seq<Schedule>)
    ensures |r| == |ss|
    ensures forall i :: 0 <= i < |ss| ==> r[i] == ss[i].(isDefault := r[i].isDefault)
    ensures forall i :: 0 <= i < |ss| ==> (r[i].isDefault <==> ss[i].isDefault && !Demotes(ss[i], userId, except))
    ensures forall i :: 0 <= i < |ss| && r[i].userId == userId && r[i].isDefault ==>
              except.Some? && r[i].id == except.value
  {
    seq(|ss|, i requires 0 <= i < |ss| =>
      if Demotes(ss[i], userId, except) then ss[i].(isDefault := false) else ss[i])
  }

  predicate UniqueScheduleIds(ss: seq<Schedule>)
  {
    forall i, j :: 0 <= i < |ss| && 0 <= j < |ss| && i != j ==> ss[i].id != ss[j].id
  }

  function ScheduleIndex(ss: seq<Schedule>, id: nat): (r: Option<nat>)
    ensures r.Some? ==> r.value < |ss| && ss[r.value].id == id
    ensures r.None? ==> forall i :: 0 <= i < |ss| ==> ss[i].id != id
  {
    IndexOfKey(ss, (s: Schedule) => s.id, id)
  }

  function OverrideIndex(os: seq<DateOverride>, id: nat): (r: Option<nat>)
    ensures r.Some? ==> r.value < |os| && os[r.value].id == id
    ensures r.None? ==> forall i :: 0 <= i < |os| ==> os[i].id != id
  {
    IndexOfKey(os, (o: DateOverride) => o.id, id)
  }

  predicate BlockedHaveNoTimes(os: seq<DateOverride>)
  {
    forall i :: 0 <= i < |os| && os[i].isBlocked ==> os[i].startTime.None? && os[i].endTime.None?
  }

  predicate HasOverrideOn(os: seq<DateOverride>, scheduleId: nat, date: int)
  {
    exists i :: 0 <= i < |os| && os[i].scheduleId == scheduleId && os[i].date == date
  }

  /** The override row after `updateDateOverride`: the flag when given, and
      times cleared when the flag is set, else replaced when given. */
  function OverrideUpdated(o: DateOverride, isBlocked: Option<bool>, startTime: Option<int>, endTime: Option<int>)
    : (r: DateOverride)
    ensures r.id == o.id && r.scheduleId == o.scheduleId && r.date == o.date
    ensures r.isBlocked == if isBlocked.Some? then isBlocked.value else o.isBlocked
    ensures isBlocked == Some(true) ==> r.startTime.None? && r.endTime.None?
    ensures isBlocked != Some(true) ==>
              && r.startTime == (if startTime.Some? then startTime else o.startTime)
              && r.endTime == (if endTime.Some? then endTime else o.endTime)
  {
    var blocked := isBlocked == Some(true);
    o.(isBlocked := if isBlocked.Some? then isBlocked.value else o.isBlocked,
       startTime := if blocked then None else if startTime.Some? then startTime else o.startTime,
       endTime := if blocked then None else if endTime.Some? then endTime else o.endTime)
  }

  /** With the flag left out of the request, an override that is already
      blocked takes the submitted times and ends up blocked with times. */
  lemma OmittedFlagCanLeaveTimes()
    ensures var o := OverrideUpdated(DateOverride(1, 1, 20479, true, None, None), None, Some(600), Some(840));
            o.isBlocked && o.startTime == Some(600)
  {
  }

  function UsesScheduleTest(scheduleId: nat): EventType -> bool
  {
    (e: EventType) => e.scheduleId == Some(scheduleId)
  }

  /** How many event types reference the schedule; positive exactly when
      some event type does. */
  function UsageCount(ets: seq<EventType>, scheduleId: nat): (n: nat)
    ensures n > 0 <==> exists e :: e in ets && e.scheduleId == Some(scheduleId)
    ensures n <= |ets|
  {
    var users := Filter(ets, UsesScheduleTest(scheduleId));
    FilterNothing(ets, UsesScheduleTest(scheduleId));
    if |users| > 0 then
      FilterMembership(ets, UsesScheduleTest(scheduleId), users[0]);
      |users|
    else
      0
  }

  function NotOfScheduleTest(scheduleId: nat): DateOverride -> bool
  {
    (o: DateOverride) => o.scheduleId != scheduleId
  }

  predicate HasSchedule(ss: seq<Schedule>, id: nat)
  {
    exists j :: 0 <= j < |ss| && ss[j].id == id
  }

  /** Override ids are unique and no schedule has two overrides for one date. */
  predicate DistinctOverrides(a: DateOverride, b: DateOverride)
  {
    a.id != b.id && (a.scheduleId != b.scheduleId || a.date != b.date)
  }

  predicate TablesValid(ss: seq<Schedule>, os: seq<DateOverride>, nextScheduleId: nat, nextOverrideId: nat)
  {
    && (forall i :: 0 <= i < |ss| ==> ss[i].id < nextScheduleId && ss[i].userId == ADMIN_USER_ID)
    && UniqueScheduleIds(ss)
    && AtMostOneDefault(ss)
    && (forall i :: 0 <= i < |os| ==> os[i].id < nextOverrideId)
    && (forall i, j :: 0 <= i < |os| && 0 <= j < |os| && i != j ==> DistinctOverrides(os[i], os[j]))
    && (forall i :: 0 <= i < |os| ==> HasSchedule(ss, os[i].scheduleId))
  }

  class ScheduleStore {
    var schedules: seq<Schedule>
    var overrides: seq<DateOverride>
    var nextScheduleId: nat
    var nextOverrideId: nat

    ghost predicate Valid()
      reads this
    {
      TablesValid(schedules, overrides, nextScheduleId, nextOverrideId)
    }

    constructor ()
      ensures Valid() && schedules == [] && overrides == []
    {
      schedules := [];
      overrides := [];
      nextScheduleId := 1;
      nextOverrideId := 1;
    }

    /** `createSchedule`: a default schedule first demotes the host's other
        defaults; the new row takes the timezone or the default one and the
        rules in the order given. */
    method CreateSchedule(name: string, timezone: string, isDefault: bool, rules: seq<Rule>)
      returns (r: Response<Schedule>)
      requires Valid()
      modifies this
      ensures Valid()
      ensures overrides == old(overrides)
      ensures r.Ok? && r.code == 201
      ensures r.body == Schedule(old(nextScheduleId), ADMIN_USER_ID, name,
                                 if timezone == "" then DEFAULT_TIMEZONE else timezone, isDefault, rules)
      ensures schedules == (if isDefault then Demoted(old(schedules), ADMIN_USER_ID, None) else old(schedules)) + [r.body]
      ensures isDefault ==> forall i :: 0 <= i < |schedules| - 1 ==> !schedules[i].isDefault
    {
      if isDefault {
        DemoteKeepsTables(schedules, overrides, nextScheduleId, nextOverrideId, None);
        schedules := Demoted(schedules, ADMIN_USER_ID, None);
      }
      var s := Schedule(nextScheduleId, ADMIN_USER_ID, name,
                        if timezone == "" then DEFAULT_TIMEZONE else timezone, isDefault, rules);
      AppendKeepsTables(schedules, overrides, nextScheduleId, nextOverrideId, s);
      schedules := schedules + [s];
      nextScheduleId := nextScheduleId + 1;
      r := Ok(201, s);
    }

    /** `updateSchedule`: setting the flag demotes every other default of
        the host (this happens even when the id turns out to be unknown,
        which then fails with 500); given fields replace, and a given rule
        list replaces the rules wholesale. */
    method UpdateSchedule(id: nat, name: Option<string>, timezone: Option<string>, isDefault: Option<bool>,
                          rules: Option<seq<Rule>>) returns (r: Response<Schedule>)
      requires Valid()
      modifies this
      ensures Valid()
      ensures overrides == old(overrides)
      ensures var demoted := if isDefault == Some(true) then Demoted(old(schedules), ADMIN_USER_ID, Some(id))
                             else old(schedules);
              match ScheduleIndex(old(schedules), id)
              case None => r == Err(500, "Failed to update schedule") && schedules == demoted
              case Some(k) =>
                var s := demoted[k];
                && r.Ok? && r.code == 200
                && r.body == s.(name := if name.Some? then name.value else s.name,
                                timezone := if timezone.Some? then timezone.value else s.timezone,
                                isDefault := if isDefault.Some? then isDefault.value else s.isDefault,
                                rules := if rules.Some? then rules.value else s.rules)
                && schedules == demoted[k := r.body]
      ensures rules.Some? && r.Ok? ==> r.body.rules == rules.value
      ensures rules.None? && r.Ok? ==> r.body.rules == old(schedules)[ScheduleIndex(old(schedules), id).value].rules
    {
      var k := ScheduleIndex(schedules, id);
      if isDefault == Some(true) {
        DemoteKeepsTables(schedules, overrides, nextScheduleId, nextOverrideId, Some(id));
        schedules := Demoted(schedules, ADMIN_USER_ID, Some(id));
      }
      if k.None? {
        return Err(500, "Failed to update schedule");
      }
      var s := schedules[k.value];
      var s' := s.(name := if name.Some? then name.value else s.name,
                   timezone := if timezone.Some? then timezone.value else s.timezone,
                   isDefault := if isDefault.Some? then isDefault.value else s.isDefault,
                   rules := if rules.Some? then rules.value else s.rules);
      ReplaceKeepsTables(schedules, overrides, nextScheduleId, nextOverrideId, k.value, s');
      schedules := schedules[k.value := s'];
      r := Ok(200, s');
    }

    /** `deleteSchedule`: refused (400) while any event type references the
        schedule; an unknown id fails (500); otherwise the row goes, and its
        overrides with it. */
    method DeleteSchedule(id: nat, eventTypes: seq<EventType>) returns (r: Response<string>)
      requires Valid()
      modifies this
      ensures Valid()
      ensures (exists e :: e in eventTypes && e.scheduleId == Some(id)) ==>
                && r == Err(400, "Cannot delete schedule. " + NatToString(UsageCount(eventTypes, id)) +
                                 " event type(s) are using it.")
                && schedules == old(schedules) && overrides == old(overrides)
      ensures (forall e :: e in eventTypes ==> e.scheduleId != Some(id)) && ScheduleIndex(old(schedules), id).None? ==>
                r == Err(500, "Failed to delete schedule") && schedules == old(schedules) && overrides == old(overrides)
      ensures (forall e :: e in eventTypes ==> e.scheduleId != Some(id)) && ScheduleIndex(old(schedules), id).Some? ==>
                var k := ScheduleIndex(old(schedules), id).value;
                && r == Ok(200, "Schedule deleted successfully")
                && schedules == old(schedules)[..k] + old(schedules)[k + 1..]
                && overrides == Filter(old(overrides), NotOfScheduleTest(id))
    {
      var n := UsageCount(eventTypes, id);
      if n > 0 {
        return Err(400, "Cannot delete schedule. " + NatToString(n) + " event type(s) are using it.");
      }
      var k := ScheduleIndex(schedules, id);
      if k.None? {
        return Err(500, "Failed to delete schedule");
      }
      DeleteKeepsTables(schedules, overrides, nextScheduleId, nextOverrideId, k.value, id);
      schedules := schedules[..k.value] + schedules[k.value + 1..];
      overrides := Filter(overrides, NotOfScheduleTest(id));
      r := Ok(200, "Schedule deleted successfully");
    }

    /** `addDateOverride`: the schedule must exist (else the insert fails,
        500) and have no override on that date yet (else 400); a blocked
        override is stored without times. */
    method AddDateOverride(scheduleId: nat, date: int, isBlocked: bool, startTime: Option<int>, endTime: Option<int>)
      returns (r: Response<DateOverride>)
      requires Valid()
      modifies this
      ensures Valid()
      ensures schedules == old(schedules)
      ensures BlockedHaveNoTimes(old(overrides)) ==> BlockedHaveNoTimes(overrides)
      ensures ScheduleIndex(schedules, scheduleId).None? ==>
                r == Err(500, "Failed to add date override") && overrides == old(overrides)
      ensures ScheduleIndex(schedules, scheduleId).Some? && HasOverrideOn(old(overrides), scheduleId, date) ==>
                r == Err(400, "Override for this date already exists") && overrides == old(overrides)
      ensures ScheduleIndex(schedules, scheduleId).Some? && !HasOverrideOn(old(overrides), scheduleId, date) ==>
                && r.Ok? && r.code == 201
                && r.body == DateOverride(old(nextOverrideId), scheduleId, date, isBlocked,
                                          if isBlocked then None else startTime,
                                          if isBlocked then None else endTime)
                && overrides == old(overrides) + [r.body]
    {
      if ScheduleIndex(schedules, scheduleId).None? {
        return Err(500, "Failed to add date override");
      }
      if HasOverrideOn(overrides, scheduleId, date) {
        return Err(400, "Override for this date already exists");
      }
      var o := DateOverride(nextOverrideId, scheduleId, date, isBlocked,
                            if isBlocked then None else startTime,
                            if isBlocked then None else endTime);
      AddOverrideKeepsTables(schedules, overrides, nextScheduleId, nextOverrideId, o);
      overrides := overrides + [o];
      nextOverrideId := nextOverrideId + 1;
      r := Ok(201, o);
    }

    /** `updateDateOverride`: an unknown id fails (500); otherwise the row
        is rewritten as `OverrideUpdated` says. The rule "blocked means no
        times" is kept whenever the request carries the flag. */
    method UpdateDateOverride(id: nat, isBlocked: Option<bool>, startTime: Option<int>, endTime: Option<int>)
      returns (r: Response<DateOverride>)
      requires Valid()
      modifies this
      ensures Valid()
      ensures schedules == old(schedules)
      ensures isBlocked.Some? && BlockedHaveNoTimes(old(overrides)) ==> BlockedHaveNoTimes(overrides)
      ensures OverrideIndex(old(overrides), id).None? ==>
                r == Err(500, "Failed to update date override") && overrides == old(overrides)
      ensures OverrideIndex(old(overrides), id).Some? ==>
                var k := OverrideIndex(old(overrides), id).value;
                && r == Ok(200, OverrideUpdated(old(overrides)[k], isBlocked, startTime, endTime))
                && overrides == old(overrides)[k := r.body]
    {
      var k := OverrideIndex(overrides, id);
      if k.None? {
        return Err(500, "Failed to update date override");
      }
      var o := OverrideUpdated(overrides[k.value], isBlocked, startTime, endTime);
      RewriteOverrideKeepsTables(schedules, overrides, nextScheduleId, nextOverrideId, k.value, o);
      overrides := overrides[k.value := o];
      r := Ok(200, o);
    }
  }

  /** Demoting defaults keeps the tables valid. */
  lemma DemoteKeepsTables(ss: seq<Schedule>, os: seq<DateOverride>, nextScheduleId: nat, nextOverrideId: nat,
                          except: Option<nat>)
    requires TablesValid(ss, os, nextScheduleId, nextOverrideId)
    ensures TablesValid(Demoted(ss, ADMIN_USER_ID, except), os, nextScheduleId, nextOverrideId)
  {
    var ss' := Demoted(ss, ADMIN_USER_ID, except);
    SameIdsKeepReferences(ss, ss', os);
    assert forall i :: 0 <= i < |ss'| ==> ss'[i].id == ss[i].id && ss'[i].userId == ss[i].userId;
  }

  /** Appending a schedule under the next id keeps the tables valid when it
      is not a second default. */
  lemma AppendKeepsTables(ss: seq<Schedule>, os: seq<DateOverride>, nextScheduleId: nat, nextOverrideId: nat,
                          s: Schedule)
    requires TablesValid(ss, os, nextScheduleId, nextOverrideId)
    requires s.id == nextScheduleId && s.userId == ADMIN_USER_ID
    requires s.isDefault ==> forall i :: 0 <= i < |ss| ==> !ss[i].isDefault
    ensures TablesValid(ss + [s], os, nextScheduleId + 1, nextOverrideId)
  {
    var ss' := ss + [s];
    assert forall i :: 0 <= i < |ss| ==> ss'[i] == ss[i];
    forall i | 0 <= i < |os| ensures HasSchedule(ss', os[i].scheduleId) {
      var j :| 0 <= j < |ss| && ss[j].id == os[i].scheduleId;
      assert ss'[j].id == os[i].scheduleId;
    }
  }

  /** Rewriting one schedule under the same id and owner keeps the tables
      valid when it does not become a second default. */
  lemma ReplaceKeepsTables(ss: seq<Schedule>, os: seq<DateOverride>, nextScheduleId: nat, nextOverrideId: nat,
                           k: nat, s: Schedule)
    requires TablesValid(ss, os, nextScheduleId, nextOverrideId)
    requires k < |ss| && s.id == ss[k].id && s.userId == ss[k].userId
    requires s.isDefault ==> ss[k].isDefault || forall i :: 0 <= i < |ss| && i != k ==> !ss[i].isDefault
    ensures TablesValid(ss[k := s], os, nextScheduleId, nextOverrideId)
  {
    SameIdsKeepReferences(ss, ss[k := s], os);
  }

  /** A new override under the next id, for an existing schedule and a date
      that schedule has no override on, keeps the tables valid. */
  lemma AddOverrideKeepsTables(ss: seq<Schedule>, os: seq<DateOverride>, nextScheduleId: nat, nextOverrideId: nat,
                               o: DateOverride)
    requires TablesValid(ss, os, nextScheduleId, nextOverrideId)
    requires o.id == nextOverrideId && ScheduleIndex(ss, o.scheduleId).Some?
    requires !HasOverrideOn(os, o.scheduleId, o.date)
    ensures TablesValid(ss, os + [o], nextScheduleId, nextOverrideId + 1)
  {
    var os' := os + [o];
    assert HasSchedule(ss, o.scheduleId);
    forall i, j | 0 <= i < |os'| && 0 <= j < |os'| && i != j ensures DistinctOverrides(os'[i], os'[j]) {
      if i == |os| {
        assert os'[j] == os[j];
      } else if j == |os| {
        assert os'[i] == os[i];
      } else {
        assert os'[i] == os[i] && os'[j] == os[j];
      }
    }
  }

  /** Rewriting one override under the same id, schedule and date keeps the
      tables valid. */
  lemma RewriteOverrideKeepsTables(ss: seq<Schedule>, os: seq<DateOverride>, nextScheduleId: nat,
                                   nextOverrideId: nat, k: nat, o: DateOverride)
    requires TablesValid(ss, os, nextScheduleId, nextOverrideId)
    requires k < |os| && o.id == os[k].id && o.scheduleId == os[k].scheduleId && o.date == os[k].date
    ensures TablesValid(ss, os[k := o], nextScheduleId, nextOverrideId)
  {
    var os' := os[k := o];
    assert forall i :: 0 <= i < |os'| ==>
      os'[i].id == os[i].id && os'[i].scheduleId == os[i].scheduleId && os'[i].date == os[i].date;
  }

  /** Rewriting schedules without touching their ids keeps every override's
      schedule reference valid. */
  lemma SameIdsKeepReferences(ss: seq<Schedule>, ss': seq<Schedule>, os: seq<DateOverride>)
    requires |ss'| == |ss| && forall j :: 0 <= j < |ss| ==> ss'[j].id == ss[j].id
    requires forall i :: 0 <= i < |os| ==> HasSchedule(ss, os[i].scheduleId)
    ensures forall i :: 0 <= i < |os| ==> HasSchedule(ss', os[i].scheduleId)
  {
    forall i | 0 <= i < |os| ensures HasSchedule(ss', os[i].scheduleId) {
      var j :| 0 <= j < |ss| && ss[j].id == os[i].scheduleId;
      assert ss'[j].id == os[i].scheduleId;
    }
  }

  /** Removing a schedule together with its overrides keeps the table
      invariants: ids stay unique, no two defaults appear, and every
      remaining override still points at a remaining schedule. */
  lemma DeleteKeepsTables(ss: seq<Schedule>, os: seq<DateOverride>, nextScheduleId: nat,
                          nextOverrideId: nat, k: nat, id: nat)
    requires TablesValid(ss, os, nextScheduleId, nextOverrideId)
    requires k < |ss| && ss[k].id == id
    ensures TablesValid(ss[..k] + ss[k + 1..], Filter(os, NotOfScheduleTest(id)), nextScheduleId, nextOverrideId)
  {
    RemovalKeepsSchedules(ss, nextScheduleId, k);
    var rel := (a: DateOverride, b: DateOverride) => DistinctOverrides(a, b);
    FilterKeepsPairwise(os, NotOfScheduleTest(id), rel);
    RemovalKeepsReferences(ss, os, nextOverrideId, k, id);
    var ss' := ss[..k] + ss[k + 1..];
    var os' := Filter(os, NotOfScheduleTest(id));
    assert forall i, j :: 0 <= i < |os'| && 0 <= j < |os'| && i != j ==> rel(os'[i], os'[j]);
    assert forall i :: 0 <= i < |ss'| ==> ss'[i].id < nextScheduleId && ss'[i].userId == ADMIN_USER_ID;
    assert UniqueScheduleIds(ss') && AtMostOneDefault(ss');
    assert forall i :: 0 <= i < |os'| ==> os'[i].id < nextOverrideId && HasSchedule(ss', os'[i].scheduleId);
  }

  lemma RemovalKeepsSchedules(ss: seq<Schedule>, nextScheduleId: nat, k: nat)
    requires forall i :: 0 <= i < |ss| ==> ss[i].id < nextScheduleId && ss[i].userId == ADMIN_USER_ID
    requires UniqueScheduleIds(ss) && AtMostOneDefault(ss) && k < |ss|
    ensures var ss' := ss[..k] + ss[k + 1..];
            && (forall i :: 0 <= i < |ss'| ==> ss'[i].id < nextScheduleId && ss'[i].userId == ADMIN_USER_ID)
            && UniqueScheduleIds(ss') && AtMostOneDefault(ss')
  {
    var ss' := ss[..k] + ss[k + 1..];
    assert forall i :: 0 <= i < |ss'| ==> ss'[i] == if i < k then ss[i] else ss[i + 1];
    forall i, j | 0 <= i < |ss'| && 0 <= j < |ss'| && i != j
      ensures ss'[i].id != ss'[j].id && (ss'[i].userId == ss'[j].userId ==> !(ss'[i].isDefault && ss'[j].isDefault))
    {
      var i0 := if i < k then i else i + 1;
      var j0 := if j < k then j else j + 1;
      assert ss'[i] == ss[i0] && ss'[j] == ss[j0] && i0 != j0;
    }
  }

  lemma RemovalKeepsReferences(ss: seq<Schedule>, os: seq<DateOverride>, nextOverrideId: nat, k: nat, id: nat)
    requires k < |ss| && ss[k].id == id
    requires forall i :: 0 <= i < |os| ==> os[i].id < nextOverrideId && HasSchedule(ss, os[i].scheduleId)
    ensures forall i :: 0 <= i < |Filter(os, NotOfScheduleTest(id))| ==>
              && Filter(os, NotOfScheduleTest(id))[i].id < nextOverrideId
              && HasSchedule(ss[..k] + ss[k + 1..], Filter(os, NotOfScheduleTest(id))[i].scheduleId)
  {
    var ss' := ss[..k] + ss[k + 1..];
    var os' := Filter(os, NotOfScheduleTest(id));
    forall i | 0 <= i < |os'| ensures os'[i].id < nextOverrideId && HasSchedule(ss', os'[i].scheduleId) {
      var o := os'[i];
      FilterMembership(os, NotOfScheduleTest(id), o);
      var m :| 0 <= m < |os| && os[m] == o;
      assert HasSchedule(ss, o.scheduleId);
      var j :| 0 <= j < |ss| && ss[j].id == o.scheduleId;
      assert j != k;
      if j < k {
        assert ss'[j] == ss[j];
      } else {
        assert ss'[j - 1] == ss[j];
      }
    }
  }
}
