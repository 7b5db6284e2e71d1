# Scolaris curriculum builder — a Dafny model

Scolaris is a small Streamlit app in which a teacher uploads a school calendar,
names a subject and grade, picks a pacing (Slow, Normal or Fast) and the weekdays
on which the subject is taught, and presses "Build My Curriculum". The app then
builds a lesson plan with one row per teaching day: date, weekday, subject and topic.

This project models that build, the only logic in `scolaris_app.py`, and proves
what it guarantees. The build runs five stages in order:

1. **Required-field guard.** With no calendar, an empty subject, an empty grade or
   no selected weekday, nothing is built.
2. **Teaching days.** Every calendar date gets its weekday name. The dates on a
   selected weekday are kept and sorted ascending by date.
3. **Topic-bank lookup.** The key is the subject and the grade, each with
   surrounding whitespace stripped as Python's `str.strip()` does. A missing key is
   an error and builds nothing. A present key gives the stored topic list.
4. **Pacing.** The pacing gives a multiplier (2, 1 or 0.5), and the repeat count is
   `max(1, round(multiplier))`. Python's `round` rounds half to even, so the counts
   are Slow 2, Normal 1 and Fast 1. Each topic is appended that many times, in order.
5. **Distribution walk.** The teaching days are visited in order with a cursor into
   the expanded topics. While the cursor is inside the list, the day gets the topic
   under the cursor and the cursor advances. After that, every day gets
   "Review / Flex / Assessment".

Modules, one file each:

- `Calendar` (`calendar.dfy`): day numbers, weekdays, the filter and the sort.
- `TopicBank` (`topic_bank.dfy`): `strip` and the bank lookup.
- `Pacing` (`pacing.dfy`): the multiplier, rounding, the repeat count and the expansion loop.
- `Distribution` (`distribution.dfy`): the walk, as a function and as the loop method.
- `Curriculum` (`curriculum.dfy`): the guard and the whole build.
- `Scenarios` (`scenarios.dfy`): worked examples.
- `Wrappers` (`wrappers.dfy`): `Option`.

Both loops of the source are methods proved against pure functions:

- `Pacing.ExpandTopics` is proved against `Pacing.Expanded`.
- `Distribution.DistributeTopics` is proved against `Distribution.LessonPlan`.

The filter-and-sort and the lookup are single expressions in the source, and they
are functions here. `Curriculum.BuildCurriculum` runs the stages in the source's
order. It is proved equal to the function `Curriculum.Plan`, which the lemmas use.

Modelling choices:

- A date is an integer day number: day 0 is 1970-01-01, a Thursday. The weekday is
  `(d + 3) mod 7` into Monday..Sunday, and Dafny's Euclidean `%` keeps dates before
  1970 right.
- The multiplier is an exact fraction, 2/1, 1/1 or 1/2, all exact in binary floating
  point. It is rounded half to even with integer arithmetic.
- The bank is a parameter of type `map<(string, string), seq<string>>`.
- The records carry the subject as typed, unstripped, as the source does. The error
  also names the unstripped subject and grade.
- The source sorts with pandas' default sort, which is not guaranteed to be stable.
  The model uses a stable insertion sort. `Calendar.SortedOrderIsUnique` proves that
  every date-sorted ordering of the same rows is the same sequence: two rows with
  equal dates are equal entries, because the weekday is a function of the date. So
  the source's unstable sort gives the same teaching days as the model's.
- The form offers only Monday to Friday, and the grade comes from a select box.
  The model accepts any set of weekdays and any grade string, so it covers those
  inputs and more.

## Model

| member | source | states |
|---|---|---|
| Calendar.WeekdayRepeatsWeekly | scolaris_app.py:125 | day 0 (1970-01-01) is a Thursday, each next day has the next weekday name (Sunday wraps to Monday), and a date seven days later has the same name |
| Calendar.WithWeekdays | scolaris_app.py:124-125 | adding the Day column keeps one entry per calendar row, in row order, with the row's date and that date's weekday |
| Calendar.FilterByDayCounts | scolaris_app.py:126 | the weekday filter keeps every row on a selected weekday as often as it occurs and drops every other row |
| Calendar.InsertByDateSorted | scolaris_app.py:126 | inserting a row into a date-sorted sequence keeps it sorted by date |
| Calendar.InsertByDateCount | scolaris_app.py:126 | inserting adds exactly one copy of the row and changes nothing else in the multiset |
| Calendar.InsertByDateMembers | scolaris_app.py:126 | the entries after an insertion are the inserted one and the old ones |
| Calendar.SortByDateSorted | scolaris_app.py:126 | the date sort returns a date-sorted permutation of its input |
| Calendar.TeachingDaysSpec | scolaris_app.py:124-126 | the teaching days are sorted by date, every one is on a selected weekday with its own date's weekday, and they are a permutation of exactly the calendar rows on selected weekdays |
| Calendar.TeachingDayMembership | scolaris_app.py:125-126 | a calendar row is among the teaching days if and only if its weekday is selected |
| Calendar.NoSelectedDaysNoTeachingDays | scolaris_app.py:126 | when no row falls on a selected weekday, including when none is selected, there are no teaching days |
| Calendar.SortedOrderIsUnique | scolaris_app.py:126 | two date-sorted orderings of the same rows are equal, so whether the sort is stable cannot change the teaching days |
| TopicBank.StripLeadingSpec | scolaris_app.py:129 | stripping the start removes a whitespace-only prefix and leaves a suffix that is empty or starts with a non-space |
| TopicBank.StripTrailingSpec | scolaris_app.py:129 | stripping the end removes a whitespace-only suffix and leaves a prefix that is empty or ends with a non-space |
| TopicBank.StripSpec | scolaris_app.py:129 | `strip` returns a contiguous part of the string with only whitespace around it, and the result neither starts nor ends with whitespace |
| TopicBank.StripIgnoresPadding | scolaris_app.py:129 | surrounding a string with whitespace on either side does not change its strip |
| TopicBank.StripUnpadded | scolaris_app.py:129 | a string that neither starts nor ends with whitespace is its own strip |
| TopicBank.StripIdempotent | scolaris_app.py:129 | stripping twice gives the same as stripping once |
| TopicBank.Lookup | scolaris_app.py:129-133 | the lookup finds topics if and only if the stripped (subject, grade) key is in the bank, and then they are the stored list for that key |
| TopicBank.LookupIgnoresPadding | scolaris_app.py:129-133 | padding the subject or the grade with whitespace finds the same topics, or the same miss |
| TopicBank.LookupOfStrippedKey | scolaris_app.py:129-133 | looking up an already stripped subject and grade gives the same result as looking up the raw ones |
| Pacing.RoundHalfEven | scolaris_app.py:139 | the rounded value is within one half of the fraction, and on an exact half it is the even neighbour |
| Pacing.RepeatCount | scolaris_app.py:136-139 | the repeat count is at least 1, and it is 2 for Slow and 1 for Normal and Fast |
| Pacing.Repeated | scolaris_app.py:140 | `[topic] * repeat` has `repeat` elements, each equal to the topic |
| Pacing.Expanded | scolaris_app.py:137-140 | the expansion has `repeat * |topics|` elements |
| Pacing.ExpandedBlock | scolaris_app.py:137-140 | copy `j` of topic `q` is at position `repeat * q + j`, so each topic fills `repeat` consecutive places in topic order |
| Pacing.ExpandedAt | scolaris_app.py:137-140 | position `k` of the expansion holds topic `k / repeat` |
| Pacing.ExpandTopics | scolaris_app.py:136-140 | the expansion loop returns `Expanded(topics, RepeatCount(pace))`: length `repeat * |topics|`, position `k` holding topic `k / repeat` |
| Distribution.Walk | scolaris_app.py:146-160 | the walk produces one record per remaining teaching day |
| Distribution.WalkAt | scolaris_app.py:146-160 | record `i` of a walk started with cursor `c` belongs to day `i` and carries expanded topic `c + i`, or the fallback when that is past the end |
| Distribution.LessonPlanAt | scolaris_app.py:143-161 | the plan has one record per teaching day, in order; record `i` has day `i`'s date and weekday and the subject, and topic `i` of the expansion while it lasts and the fallback after |
| Distribution.ExcessTopicsDropped | scolaris_app.py:147-154 | with at least as many expanded topics as days, the plan's topics are the first `|days|` expanded topics and the rest are dropped |
| Distribution.LeftoverDaysGetFallback | scolaris_app.py:147-160 | with fewer expanded topics than days, the plan's topics are all expanded topics followed by one fallback per remaining day |
| Distribution.TopicsIgnoreSubject | scolaris_app.py:146-160 | the subject written into the records does not change which topics the plan teaches |
| Distribution.DistributeTopics | scolaris_app.py:142-161 | the loop keeps its cursor at `min(i, |expanded|)` after `i` days and returns `LessonPlan(expanded, days, subject)`, with one record per day and the per-index date, weekday, subject and topic |
| Curriculum.BuildCurriculum | scolaris_app.py:119-161 | the build fails exactly when a field is missing, with MissingFields, or the stripped key is not in the bank, with NoPreloadedCurriculum naming the raw subject and grade; otherwise record `i` has teaching day `i`'s date and weekday, the raw subject, and stored topic `i / repeat` while `i < repeat * |topics|`, the fallback after |
| Curriculum.PlanOfKnownCourse | scolaris_app.py:119-161 | unfolding helper for the scenarios: with all fields filled in and the course in the bank, the build is the walk of that course's expanded topics over the teaching days |
| Curriculum.PlanFollowsCalendar | scolaris_app.py:124-161 | every record of a built plan is on a selected weekday that matches its date, carries the subject as typed, and the dates never decrease |
| Curriculum.NoTeachingDaysEmptyPlan | scolaris_app.py:126-161 | a calendar with no row on a selected weekday builds an empty plan, not an error |
| Curriculum.PaddedSubjectSameTopics | scolaris_app.py:129-161 | a subject with any whitespace before and any whitespace after it builds a plan with the same topics as the plain subject |
| Curriculum.FastPaceIsNormalPace | scolaris_app.py:136-140 | the Fast pace builds exactly the same plan as the Normal pace |
| Scenarios.ExpandedTwoTopics | scolaris_app.py:137-140 | two topics expand to `[a, b]` once each and to `[a, a, b, b]` twice each |
| Scenarios.ExampleRowsFiltered | scolaris_app.py:124-126 | a Wednesday, Monday, Tuesday, Sunday calendar filtered to Monday–Wednesday keeps the first three rows in calendar order |
| Scenarios.ExampleTeachingDays | scolaris_app.py:124-126 | the example calendar's teaching days are Monday, Tuesday, Wednesday in date order |
| Scenarios.ExamplePlan | scolaris_app.py:119-161 | unfolding helper for the scenarios: a build over any calendar with those three teaching days walks the expanded topics over them |
| Scenarios.ScenarioNormalPace | scolaris_app.py:136-161 | topics a, b at Normal pace over three teaching days give a, b, fallback |
| Scenarios.ScenarioSlowPace | scolaris_app.py:136-161 | topics a, b at Slow pace over three teaching days give a, a, b, and the second b is dropped |
| Scenarios.ScenarioNoMatchingDay | scolaris_app.py:124-161 | selecting only Saturday on a calendar with no Saturday builds an empty plan, not an error |
| Scenarios.ScenarioFailures | scolaris_app.py:120-131 | an unknown subject fails with NoPreloadedCurriculum; an empty selection, a missing calendar or an empty subject fails with MissingFields |

## Left out

- The Streamlit page: the inputs, the button, the warning, error and success messages, and the table display. They are user-interface plumbing. The two failure kinds stand in for the messages.
- Reading the uploaded CSV, including its parse errors and any columns other than Date. Parsing date strings with `pd.to_datetime` and any time of day dropped by `.date()` are left out too. The calendar is a sequence of day numbers.
- The CSV download of the plan. It is output only.
- Floating point. The multipliers are exact fractions, and rounding is done on them exactly.
- The contents of the built-in topic bank. The bank is a parameter.
- The unused `total_days` variable. It has no effect.
- Lesson status tracking, a persisted status store, a lesson-edit portal and a stride-based distribution. They are not part of `scolaris_app.py`, so they are not part of this model.
