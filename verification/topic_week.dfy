// A topic's current week: one entry per weekday, with the levels studied that day.

module TopicWeek {
  import opened SyncTypes
  import opened Schedule

  /** One day of a topic's week; its levels are a row of the schedule. */
  datatype Day = Day(date: int, row: int, isDone: bool) {
    function TodayLevels(): seq<int> { LevelsOn(row % 64) }
  }

  /** The weekday of a calendar day; day 0 is a Sunday. */
  function Weekday(day: int): nat { day % 7 }

  /** The first day of the week a day belongs to. */
  function Sunday(day: int): int { day - Weekday(day) }

  /** A day as the schedule of a topic has it, not yet done. */
  function Planned(pivot: int, date: int): Day { Day(date, (date - pivot) % 64, false) }

  ghost predicate SteadyClock(midnight: Midnights, pivot: int, from: int) {
    forall d :: from <= d < from + 7 ==> WithinHalfDay(midnight, pivot, d)
  }

  method PlanDay(midnight: Midnights, pivot: int, date: int) returns (day: Day)
    requires WithinHalfDay(midnight, pivot, date)
    ensures day == Planned(pivot, date)
  {
    CycleDayCounts(midnight, pivot, date);
    day := Day(date, GetCycleDay(midnight, pivot, date), false);
  }

  /** Nothing before today, and from today on the days as planned. */
  ghost predicate StartsToday(week: seq<Option<Day>>, today: int) {
    |week| == 7 && forall d :: 0 <= d < 7 ==>
      week[d] == if d < Weekday(today) then None else Some(Planned(today, Sunday(today) + d))
  }

  /** All seven days as planned. */
  ghost predicate WholeWeek(week: seq<Option<Day>>, pivot: int, today: int) {
    |week| == 7 && forall d :: 0 <= d < 7 ==> week[d] == Some(Planned(pivot, Sunday(today) + d))
  }

  /** The week a topic starts in. */
  method SetStartWeek(midnight: Midnights, today: int) returns (week: seq<Option<Day>>)
    requires SteadyClock(midnight, today, Sunday(today))
    ensures StartsToday(week, today)
  {
    week := [];
    for d := 0 to 7
      invariant |week| == d
      invariant forall j :: 0 <= j < d ==>
                  week[j] == if j < Weekday(today) then None else Some(Planned(today, Sunday(today) + j))
    {
      if Weekday(today) > d {
        week := week + [None];
      } else {
        var day := PlanDay(midnight, today, today + (d - Weekday(today)));
        week := week + [Some(day)];
      }
    }
  }

  /** The whole week of a day. */
  method PlanWeek(midnight: Midnights, pivot: int, today: int) returns (week: seq<Option<Day>>)
    requires SteadyClock(midnight, pivot, Sunday(today))
    ensures WholeWeek(week, pivot, today)
  {
    week := [];
    for d := 0 to 7
      invariant |week| == d && forall j :: 0 <= j < d ==> week[j] == Some(Planned(pivot, Sunday(today) + j))
    {
      var day := PlanDay(midnight, pivot, today + (d - Weekday(today)));
      week := week + [Some(day)];
    }
  }

  /** Seven days from a Sunday on, planned from the pivot; days before the pivot may be missing. */
  ghost predicate IsWeek(week: seq<Option<Day>>, pivot: int, sunday: int) {
    |week| == 7 && forall d :: 0 <= d < 7 ==>
      match week[d]
      case None => sunday + d < pivot
      case Some(day) => day.date == sunday + d && day.row == (sunday + d - pivot) % 64
  }

  /** No day of the week is done. */
  predicate IsOpen(week: seq<Option<Day>>) {
    forall d :: 0 <= d < |week| && week[d].Some? ==> !week[d].value.isDone
  }

  lemma StartIsWeek(week: seq<Option<Day>>, today: int)
    requires StartsToday(week, today)
    ensures IsWeek(week, today, Sunday(today)) && IsOpen(week) && week[Weekday(today)] == Some(Planned(today, today))
    ensures Planned(today, today).TodayLevels() == [1]
  {
  }

  lemma WholeIsWeek(week: seq<Option<Day>>, pivot: int, today: int)
    requires WholeWeek(week, pivot, today)
    ensures IsWeek(week, pivot, Sunday(today)) && IsOpen(week)
  {
  }

  /** The next update falls on the Sunday after, and that Sunday's week begins with it. */
  lemma NextIsSunday(today: int)
    ensures NextUpdateDate(today) == Sunday(today) + 7 && Weekday(NextUpdateDate(today)) == 0
    ensures today < NextUpdateDate(today) <= today + 7 && Sunday(NextUpdateDate(today)) == NextUpdateDate(today)
  {
  }

  function NextUpdateDate(today: int): int { today + (7 - Weekday(today)) }

  class Topic {
    var pivot: int
    var week: seq<Option<Day>>
    var nextUpdateDate: int
    var updatedAt: Time
    var isArchived: bool

    /** The week is that before the next update. */
    ghost predicate Valid()
      reads this
    {
      IsWeek(week, pivot, nextUpdateDate - 7) && Weekday(nextUpdateDate) == 0
    }

    constructor (midnight: Midnights, today: int, now: Time)
      requires SteadyClock(midnight, today, Sunday(today))
      ensures Valid() && pivot == today && nextUpdateDate == Sunday(today) + 7 && StartsToday(week, today)
      ensures !isArchived && updatedAt == now && IsOpen(week)
    {
      pivot := today;
      week := [];
      nextUpdateDate := NextUpdateDate(today);
      updatedAt := now;
      isArchived := false;
      new;
      week := SetStartWeek(midnight, today);
      StartIsWeek(week, today);
      NextIsSunday(today);
    }

    /** Moves to the week of `today`; the days to come are all open. */
    method UpdateWeek(midnight: Midnights, today: int, now: Time)
      requires SteadyClock(midnight, pivot, Sunday(today))
      modifies this
      ensures Valid() && pivot == old(pivot) && isArchived == old(isArchived) && updatedAt == now
      ensures nextUpdateDate == Sunday(today) + 7
      ensures WholeWeek(week, pivot, today) && IsOpen(week)
    {
      var planned := PlanWeek(midnight, pivot, today);
      WholeIsWeek(planned, pivot, today);
      NextIsSunday(today);
      week, nextUpdateDate, updatedAt := planned, NextUpdateDate(today), now;
    }

    /** Starts the topic over, from today. */
    method Reactivate(midnight: Midnights, today: int)
      requires SteadyClock(midnight, today, Sunday(today))
      modifies this
      ensures Valid() && pivot == today && !isArchived && updatedAt == old(updatedAt)
      ensures StartsToday(week, today) && IsOpen(week) && nextUpdateDate == Sunday(today) + 7
    {
      var start := SetStartWeek(midnight, today);
      StartIsWeek(start, today);
      NextIsSunday(today);
      pivot, week, nextUpdateDate, isArchived := today, start, NextUpdateDate(today), false;
    }
  }
}
