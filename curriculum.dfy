/**
 The "Build My Curriculum" action: the required-field guard, the teaching-day
 filter, the topic-bank lookup, the pacing expansion and the distribution walk,
 run in that order (scolaris_app.py, lines 119-161).
 */
module Curriculum {

  import opened Wrappers
  import opened Calendar
  import opened TopicBank
  import opened Pacing
  import opened Distribution

  /** Why a build produced no lesson plan. */
  datatype BuildError =
    | MissingFields
    | NoPreloadedCurriculum(subject: string, grade: string)

  datatype Outcome = Built(plan: seq<LessonRecord>) | Failed(error: BuildError)

  /**
   The required-field guard: a calendar was uploaded, the subject and the
   grade are not empty (before stripping) and at least one weekday is selected.
   */
  predicate FieldsComplete(calendar: Option<seq<Date>>, subject: string, grade: string,
                           selected: set<Weekday>)
  {
    calendar.Some? && subject != "" && grade != "" && selected != {}
  }

  /** What a build produces, stage by stage. */
  function Plan(calendar: Option<seq<Date>>, subject: string, grade: string, pace: Pace,
                selected: set<Weekday>, bank: Bank): Outcome
  {
    if !FieldsComplete(calendar, subject, grade, selected) then Failed(MissingFields)
    else
      match Lookup(bank, subject, grade)
      case None => Failed(NoPreloadedCurriculum(subject, grade))
      case Some(topics) =>
        Built(LessonPlan(Expanded(topics, RepeatCount(pace)), TeachingDays(calendar.value, selected), subject))
  }

  /**
   The build itself. It fails exactly when a required field is missing or the
   stripped (subject, grade) key is not in the bank; otherwise the plan has one
   record per teaching day, and record `i` teaches topic `i / repeat` of the
   stored list while the expanded topics last and the fallback after.
   */
  method BuildCurriculum(calendar: Option<seq<Date>>, subject: string, grade: string, pace: Pace,
                         selected: set<Weekday>, bank: Bank)
    returns (r: Outcome)
    ensures r == Plan(calendar, subject, grade, pace, selected, bank)
    ensures r.Failed? <==> !FieldsComplete(calendar, subject, grade, selected)
                           || (Strip(subject), Strip(grade)) !in bank
    ensures !FieldsComplete(calendar, subject, grade, selected) ==> r == Failed(MissingFields)
    ensures FieldsComplete(calendar, subject, grade, selected) && (Strip(subject), Strip(grade)) !in bank
            ==> r == Failed(NoPreloadedCurriculum(subject, grade))
    ensures r.Built? ==>
              var topics := bank[(Strip(subject), Strip(grade))];
              var days := TeachingDays(calendar.value, selected);
              var repeat := RepeatCount(pace);
              && |r.plan| == |days|
              && forall i :: 0 <= i < |days| ==>
                   && r.plan[i].date == days[i].date
                   && r.plan[i].day == days[i].day
                   && r.plan[i].subject == subject
                   && r.plan[i].topic == (if i < repeat * |topics| then topics[i / repeat] else Fallback)
  {
    if !FieldsComplete(calendar, subject, grade, selected) {
      return Failed(MissingFields);
    }
    var teachingDays := TeachingDays(calendar.value, selected);
    var found := Lookup(bank, subject, grade);
    if found.None? {
      return Failed(NoPreloadedCurriculum(subject, grade));
    }
    var topics := found.value;
    var expanded := ExpandTopics(topics, pace);
    var plan := DistributeTopics(expanded, teachingDays, subject);
    r := Built(plan);
  }

  /** With the fields complete and the course in the bank, the build walks its expanded topics over the teaching days. */
  lemma PlanOfKnownCourse(calendar: seq<Date>, subject: string, grade: string, pace: Pace,
                          selected: set<Weekday>, bank: Bank, days: seq<Entry>)
    requires FieldsComplete(Some(calendar), subject, grade, selected)
    requires (Strip(subject), Strip(grade)) in bank
    requires TeachingDays(calendar, selected) == days
    ensures Plan(Some(calendar), subject, grade, pace, selected, bank)
            == Built(LessonPlan(Expanded(bank[(Strip(subject), Strip(grade))], RepeatCount(pace)), days, subject))
  {
  }

  /**
   Every record of a built plan is on a selected weekday, carries its own
   date's weekday and the subject as typed, and the dates never go down.
   */
  lemma PlanFollowsCalendar(calendar: Option<seq<Date>>, subject: string, grade: string, pace: Pace,
                            selected: set<Weekday>, bank: Bank)
    requires Plan(calendar, subject, grade, pace, selected, bank).Built?
    ensures var plan := Plan(calendar, subject, grade, pace, selected, bank).plan;
            && (forall i :: 0 <= i < |plan| ==>
                  plan[i].day in selected && plan[i].day == WeekdayOf(plan[i].date) && plan[i].subject == subject)
            && (forall i, j :: 0 <= i < j < |plan| ==> plan[i].date <= plan[j].date)
  {
    var topics := Lookup(bank, subject, grade).value;
    var days := TeachingDays(calendar.value, selected);
    TeachingDaysSpec(calendar.value, selected);
    LessonPlanAt(Expanded(topics, RepeatCount(pace)), days, subject);
  }

  /** A calendar with no row on a selected weekday builds an empty plan, not an error. */
  lemma NoTeachingDaysEmptyPlan(calendar: seq<Date>, subject: string, grade: string, pace: Pace,
                                selected: set<Weekday>, bank: Bank)
    requires FieldsComplete(Some(calendar), subject, grade, selected)
    requires (Strip(subject), Strip(grade)) in bank
    requires forall k :: 0 <= k < |calendar| ==> WeekdayOf(calendar[k]) !in selected
    ensures Plan(Some(calendar), subject, grade, pace, selected, bank) == Built([])
  {
    NoSelectedDaysNoTeachingDays(calendar, selected);
  }

  /** Stripping happens before the lookup: a subject padded with whitespace builds the same topics. */
  lemma PaddedSubjectSameTopics(calendar: Option<seq<Date>>, subject: string, grade: string, pace: Pace,
                                selected: set<Weekday>, bank: Bank, pre: string, post: string)
    requires AllSpace(pre) && AllSpace(post)
    requires Plan(calendar, subject, grade, pace, selected, bank).Built?
    ensures Plan(calendar, pre + subject + post, grade, pace, selected, bank).Built?
    ensures Topics(Plan(calendar, pre + subject + post, grade, pace, selected, bank).plan)
            == Topics(Plan(calendar, subject, grade, pace, selected, bank).plan)
  {
    var padded := pre + subject + post;
    assert padded != "" by { assert |padded| >= |subject|; }
    assert Lookup(bank, padded, grade) == Lookup(bank, subject, grade) by {
      LookupIgnoresPadding(bank, subject, grade, pre, post, "", "");
      assert "" + grade + "" == grade;
    }
    var topics := Lookup(bank, subject, grade).value;
    var expanded := Expanded(topics, RepeatCount(pace));
    var days := TeachingDays(calendar.value, selected);
    assert Plan(calendar, padded, grade, pace, selected, bank) == Built(LessonPlan(expanded, days, padded));
    TopicsIgnoreSubject(expanded, days, subject, padded);
  }

  /** `max(1, round(0.5))` is 1, so the Fast pace builds exactly the plan the Normal pace does. */
  lemma FastPaceIsNormalPace(calendar: Option<seq<Date>>, subject: string, grade: string,
                             selected: set<Weekday>, bank: Bank)
    ensures Plan(calendar, subject, grade, Fast, selected, bank) == Plan(calendar, subject, grade, Normal, selected, bank)
  {
    assert RepeatCount(Fast) == RepeatCount(Normal);
  }
}
