/**
 Worked examples. The example calendar lists days of the first full week of
 1970 (day 4 is Monday 5 January, day 10 is Sunday 11 January); the builds are
 stated for any calendar with the same teaching days, and for any course key
 that is already stripped.
 */
module Scenarios {

  import opened Wrappers
  import opened Calendar
  import opened TopicBank
  import opened Pacing
  import opened Distribution
  import opened Curriculum

  const ExampleWeek: set<Weekday> := {Monday, Tuesday, Wednesday}

  /** The calendar of the examples: Wednesday, Monday, Tuesday and Sunday, out of order. */
  const ExampleCalendar: seq<Date> := [6, 4, 5, 10]

  /** Its teaching days for Monday to Wednesday, in date order. */
  const ExampleDays: seq<Entry> := [Entry(4, Monday), Entry(5, Tuesday), Entry(6, Wednesday)]

  lemma ExpandedTwoTopics(a: Topic, b: Topic)
    ensures Expanded([a, b], 1) == [a, b]
    ensures Expanded([a, b], 2) == [a, a, b, b]
  {
    assert [a, b][..1] == [a];
    assert [a][..0] == [];
    assert Repeated(a, 2) == [a, a] && Repeated(b, 2) == [b, b];
  }

  /** The Sunday row is dropped and the others keep their calendar order. */
  lemma ExampleRowsFiltered()
    ensures FilterByDay(WithWeekdays(ExampleCalendar), ExampleWeek)
            == [Entry(6, Wednesday), Entry(4, Monday), Entry(5, Tuesday)]
  {
    var e6, e4, e5, e10 := Entry(6, Wednesday), Entry(4, Monday), Entry(5, Tuesday), Entry(10, Sunday);
    assert WithWeekdays(ExampleCalendar) == [e6, e4, e5, e10] by {
      assert WeekdayOf(6) == Wednesday && WeekdayOf(4) == Monday;
      assert WeekdayOf(5) == Tuesday && WeekdayOf(10) == Sunday;
    }
    assert FilterByDay([e6, e4, e5, e10], ExampleWeek) == [e6, e4, e5] by {
      FilterByDayCons(e10, [], ExampleWeek);
      FilterByDayCons(e5, [e10], ExampleWeek);
      FilterByDayCons(e4, [e5, e10], ExampleWeek);
      FilterByDayCons(e6, [e4, e5, e10], ExampleWeek);
    }
  }

  /** The kept rows are put in date order. */
  lemma ExampleTeachingDays()
    ensures TeachingDays(ExampleCalendar, ExampleWeek) == ExampleDays
  {
    ExampleRowsFiltered();
    var e6, e4, e5 := Entry(6, Wednesday), Entry(4, Monday), Entry(5, Tuesday);
    assert SortByDate([e5]) == [e5] by { assert [e5][1..] == []; }
    assert SortByDate([e4, e5]) == [e4, e5] by { assert [e4, e5][1..] == [e5]; }
    assert InsertByDate(e6, [e5]) == [e5, e6] by { assert [e5][1..] == []; }
    assert InsertByDate(e6, [e4, e5]) == [e4, e5, e6] by { assert [e4, e5][1..] == [e5]; }
    assert SortByDate([e6, e4, e5]) == [e4, e5, e6] by { assert [e6, e4, e5][1..] == [e4, e5]; }
  }

  /** A course key that stripping leaves alone, as the bank's own keys are. */
  predicate StrippedKey(subject: string, grade: string)
  {
    subject != "" && grade != "" && Strip(subject) == subject && Strip(grade) == grade
  }

  /**
   A build over any calendar whose teaching days are those of the example
   week (as the example calendar's are) walks the expanded topics over them.
   */
  lemma ExamplePlan(calendar: seq<Date>, subject: string, grade: string, pace: Pace, topics: seq<Topic>)
    requires StrippedKey(subject, grade) && TeachingDays(calendar, ExampleWeek) == ExampleDays
    ensures Plan(Some(calendar), subject, grade, pace, ExampleWeek, map[(subject, grade) := topics])
            == Built(LessonPlan(Expanded(topics, RepeatCount(pace)), ExampleDays, subject))
  {
    PlanOfKnownCourse(calendar, subject, grade, pace, ExampleWeek, map[(subject, grade) := topics], ExampleDays);
  }

  /** Normal pace: two topics over three days leave one review day. */
  lemma ScenarioNormalPace(calendar: seq<Date>, subject: string, grade: string, a: Topic, b: Topic)
    requires StrippedKey(subject, grade) && TeachingDays(calendar, ExampleWeek) == ExampleDays
    ensures var r := Plan(Some(calendar), subject, grade, Normal, ExampleWeek, map[(subject, grade) := [a, b]]);
            r.Built? && Topics(r.plan) == [a, b, Fallback]
  {
    var bank := map[(subject, grade) := [a, b]];
    assert Plan(Some(calendar), subject, grade, Normal, ExampleWeek, bank)
           == Built(LessonPlan([a, b], ExampleDays, subject)) by {
      ExamplePlan(calendar, subject, grade, Normal, [a, b]);
      ExpandedTwoTopics(a, b);
    }
    assert Topics(LessonPlan([a, b], ExampleDays, subject)) == [a, b, Fallback] by {
      LessonPlanAt([a, b], ExampleDays, subject);
    }
  }

  /** Slow pace: every topic twice, and the last copy falls off the end. */
  lemma ScenarioSlowPace(calendar: seq<Date>, subject: string, grade: string, a: Topic, b: Topic)
    requires StrippedKey(subject, grade) && TeachingDays(calendar, ExampleWeek) == ExampleDays
    ensures var r := Plan(Some(calendar), subject, grade, Slow, ExampleWeek, map[(subject, grade) := [a, b]]);
            r.Built? && Topics(r.plan) == [a, a, b]
  {
    var bank := map[(subject, grade) := [a, b]];
    assert Plan(Some(calendar), subject, grade, Slow, ExampleWeek, bank)
           == Built(LessonPlan([a, a, b, b], ExampleDays, subject)) by {
      ExamplePlan(calendar, subject, grade, Slow, [a, b]);
      ExpandedTwoTopics(a, b);
    }
    assert Topics(LessonPlan([a, a, b, b], ExampleDays, subject)) == [a, a, b] by {
      ExcessTopicsDropped([a, a, b, b], ExampleDays, subject);
    }
  }

  /** Only Saturday selected, and the example calendar has no Saturday: an empty plan and no error. */
  lemma ScenarioNoMatchingDay(subject: string, grade: string, pace: Pace, topics: seq<Topic>)
    requires StrippedKey(subject, grade)
    ensures Plan(Some(ExampleCalendar), subject, grade, pace, {Saturday}, map[(subject, grade) := topics])
            == Built([])
  {
    assert TeachingDays(ExampleCalendar, {Saturday}) == [] by {
      assert forall k :: 0 <= k < |ExampleCalendar| ==> WeekdayOf(ExampleCalendar[k]) != Saturday;
      NoSelectedDaysNoTeachingDays(ExampleCalendar, {Saturday});
    }
    PlanOfKnownCourse(ExampleCalendar, subject, grade, pace, {Saturday}, map[(subject, grade) := topics], []);
  }

  /** An unknown course and an incomplete form both build nothing. */
  lemma ScenarioFailures(calendar: seq<Date>, subject: string, grade: string, other: string, a: Topic, b: Topic)
    requires StrippedKey(subject, grade) && other != "" && Strip(other) != subject
    ensures var bank := map[(subject, grade) := [a, b]];
            && Plan(Some(calendar), other, grade, Normal, ExampleWeek, bank)
               == Failed(NoPreloadedCurriculum(other, grade))
            && Plan(Some(calendar), subject, grade, Normal, {}, bank) == Failed(MissingFields)
            && Plan(None, subject, grade, Normal, ExampleWeek, bank) == Failed(MissingFields)
            && Plan(Some(calendar), "", grade, Normal, ExampleWeek, bank) == Failed(MissingFields)
  {
  }
}
