/**
 The teaching-day filter: every row of the uploaded calendar gets the name of
 its weekday, the rows whose weekday was selected are kept, and the kept rows
 are sorted ascending by date (scolaris_app.py, lines 124-126).
 */
module Calendar {

  datatype Weekday = Monday | Tuesday | Wednesday | Thursday | Friday | Saturday | Sunday

  /** A calendar date as a day number: day 0 is 1970-01-01, a Thursday. */
  type Date = int

  /** The weekday of a date; `%` is Euclidean, so dates before 1970 are right too. */
  function WeekdayOf(d: Date): Weekday
  {
    [Monday, Tuesday, Wednesday, Thursday, Friday, Saturday, Sunday][(d + 3) % 7]
  }

  /** The weekday that follows `w`, Sunday wrapping round to Monday. */
  function Next(w: Weekday): Weekday
  {
    match w
    case Monday => Tuesday
    case Tuesday => Wednesday
    case Wednesday => Thursday
    case Thursday => Friday
    case Friday => Saturday
    case Saturday => Sunday
    case Sunday => Monday
  }

  /** Day 0 is a Thursday, each day is followed by the next weekday, and the names repeat weekly. */
  lemma WeekdayRepeatsWeekly(d: Date)
    ensures WeekdayOf(0) == Thursday
    ensures WeekdayOf(d + 1) == Next(WeekdayOf(d))
    ensures WeekdayOf(d + 7) == WeekdayOf(d)
  {
  }

  /** A calendar row once its Date column is parsed and its Day column added. */
  datatype Entry = Entry(date: Date, day: Weekday)

  /** The Day column agrees with the Date column. */
  predicate WellFormed(e: Entry)
  {
    e.day == WeekdayOf(e.date)
  }

  /** The Day column is added to every row: one entry per row, in row order. */
  function WithWeekdays(dates: seq<Date>): (r: seq<Entry>)
    ensures |r| == |dates|
    ensures forall i :: 0 <= i < |r| ==> r[i].date == dates[i] && WellFormed(r[i])
  {
    seq(|dates|, i requires 0 <= i < |dates| => Entry(dates[i], WeekdayOf(dates[i])))
  }

  /** The rows whose Day is among the selected days, in their original order. */
  function FilterByDay(entries: seq<Entry>, selected: set<Weekday>): seq<Entry>
  {
    if entries == [] then []
    else (if entries[0].day in selected then [entries[0]] else []) + FilterByDay(entries[1..], selected)
  }

  /** The filter keeps every row on a selected day, as often as it occurs, and no other row. */
  lemma {:induction false} FilterByDayCounts(entries: seq<Entry>, selected: set<Weekday>)
    ensures forall e :: multiset(FilterByDay(entries, selected))[e]
                        == if e.day in selected then multiset(entries)[e] else 0
  {
    if entries != [] {
      FilterByDayCounts(entries[1..], selected);
      assert entries == [entries[0]] + entries[1..];
    }
  }

  /** One step of the filter: the first row is kept or not, then the rest is filtered. */
  lemma FilterByDayCons(e: Entry, rest: seq<Entry>, selected: set<Weekday>)
    ensures FilterByDay([e] + rest, selected)
            == (if e.day in selected then [e] else []) + FilterByDay(rest, selected)
  {
    assert ([e] + rest)[1..] == rest;
  }

  ghost predicate SortedByDate(s: seq<Entry>)
  {
    forall i, j :: 0 <= i < j < |s| ==> s[i].date <= s[j].date
  }

  /** Puts `e` before the first entry of `s` with a larger date. */
  function InsertByDate(e: Entry, s: seq<Entry>): seq<Entry>
  {
    if s == [] || e.date <= s[0].date then [e] + s
    else [s[0]] + InsertByDate(e, s[1..])
  }

  /** Inserting into a date-sorted sequence keeps it sorted. */
  lemma {:induction false} InsertByDateSorted(e: Entry, s: seq<Entry>)
    requires SortedByDate(s)
    ensures SortedByDate(InsertByDate(e, s))
  {
    if s == [] || e.date <= s[0].date {
      PrependSorted(e, s);
    } else {
      var rest := InsertByDate(e, s[1..]);
      assert SortedByDate(s[1..]);
      InsertByDateSorted(e, s[1..]);
      assert forall j :: 0 <= j < |rest| ==> s[0].date <= rest[j].date by {
        SortedHeadIsLeast(s);
        InsertByDateMembers(e, s[1..]);
        assert forall x :: x in s[1..] ==> x in s;
      }
      PrependSorted(s[0], rest);
    }
  }

  /** Inserting adds exactly one copy of `e`. */
  lemma {:induction false} InsertByDateCount(e: Entry, s: seq<Entry>)
    ensures multiset(InsertByDate(e, s)) == multiset(s) + multiset{e}
  {
    if s != [] && e.date > s[0].date {
      InsertByDateCount(e, s[1..]);
      assert s == [s[0]] + s[1..];
    }
  }

  /** The insertion holds `e` and the entries of `s`, and nothing else. */
  lemma {:induction false} InsertByDateMembers(e: Entry, s: seq<Entry>)
    ensures forall x :: x in InsertByDate(e, s) <==> x == e || x in s
  {
    if s != [] && e.date > s[0].date {
      InsertByDateMembers(e, s[1..]);
      assert s == [s[0]] + s[1..];
    }
  }

  /** An entry no later than every entry of a sorted sequence can go in front of it. */
  lemma PrependSorted(h: Entry, s: seq<Entry>)
    requires SortedByDate(s)
    requires forall j :: 0 <= j < |s| ==> h.date <= s[j].date
    ensures SortedByDate([h] + s)
  {
    var t := [h] + s;
    forall i, j | 0 <= i < j < |t|
      ensures t[i].date <= t[j].date
    {
      assert t[j] == s[j - 1];
      if i > 0 {
        assert t[i] == s[i - 1];
      }
    }
  }

  /** In a date-sorted sequence no entry comes before the first. */
  lemma SortedHeadIsLeast(s: seq<Entry>)
    requires SortedByDate(s) && s != []
    ensures forall x :: x in s ==> s[0].date <= x.date
  {
    forall x | x in s
      ensures s[0].date <= x.date
    {
      var i :| 0 <= i < |s| && s[i] == x;
    }
  }

  /** Ascending sort by date (an insertion sort). */
  function SortByDate(s: seq<Entry>): seq<Entry>
  {
    if s == [] then [] else InsertByDate(s[0], SortByDate(s[1..]))
  }

  /** The sort returns a date-sorted permutation of its input. */
  lemma {:induction false} SortByDateSorted(s: seq<Entry>)
    ensures SortedByDate(SortByDate(s))
    ensures multiset(SortByDate(s)) == multiset(s)
  {
    if s != [] {
      assert s == [s[0]] + s[1..];
      SortByDateSorted(s[1..]);
      InsertByDateSorted(s[0], SortByDate(s[1..]));
      InsertByDateCount(s[0], SortByDate(s[1..]));
    }
  }

  /** The teaching days of a calendar for the selected weekdays. */
  function TeachingDays(calendar: seq<Date>, selected: set<Weekday>): seq<Entry>
  {
    SortByDate(FilterByDay(WithWeekdays(calendar), selected))
  }

  /**
   The teaching days are sorted by date, each carries its own date's weekday,
   and they hold every calendar row on a selected weekday, as often as it
   occurs, and no other row.
   */
  lemma TeachingDaysSpec(calendar: seq<Date>, selected: set<Weekday>)
    ensures var r := TeachingDays(calendar, selected);
            && SortedByDate(r)
            && (forall i :: 0 <= i < |r| ==> r[i].day in selected && WellFormed(r[i]))
            && (forall e :: multiset(r)[e] == if e.day in selected then multiset(WithWeekdays(calendar))[e] else 0)
  {
    var rows := WithWeekdays(calendar);
    var r := TeachingDays(calendar, selected);
    FilterByDayCounts(rows, selected);
    SortByDateSorted(FilterByDay(rows, selected));
    forall i | 0 <= i < |r|
      ensures r[i].day in selected && WellFormed(r[i])
    {
      assert r[i] in multiset(r);
      assert r[i] in multiset(rows);
    }
  }

  /** A row appears among the teaching days exactly when its weekday is selected. */
  lemma TeachingDayMembership(calendar: seq<Date>, selected: set<Weekday>, k: nat)
    requires k < |calendar|
    ensures Entry(calendar[k], WeekdayOf(calendar[k])) in TeachingDays(calendar, selected)
            <==> WeekdayOf(calendar[k]) in selected
  {
    var rows := WithWeekdays(calendar);
    var e := Entry(calendar[k], WeekdayOf(calendar[k]));
    assert rows[k] == e;
    assert e in multiset(rows);
    var r := TeachingDays(calendar, selected);
    TeachingDaysSpec(calendar, selected);
    assert e in r <==> e in multiset(r);
  }

  /** No selected day, or no row on a selected day, gives no teaching days. */
  lemma NoSelectedDaysNoTeachingDays(calendar: seq<Date>, selected: set<Weekday>)
    requires forall k :: 0 <= k < |calendar| ==> WeekdayOf(calendar[k]) !in selected
    ensures TeachingDays(calendar, selected) == []
  {
    var r := TeachingDays(calendar, selected);
    var rows := WithWeekdays(calendar);
    TeachingDaysSpec(calendar, selected);
    forall e: Entry
      ensures multiset(r)[e] == 0
    {
      if e.day in selected {
        assert e !in rows;
      }
    }
    assert multiset(r) == multiset{};
  }

  /** Dropping the head of a sequence drops one copy of it from its multiset. */
  lemma TailMultiset(s: seq<Entry>)
    requires s != []
    ensures multiset(s[1..]) == multiset(s) - multiset{s[0]}
  {
    assert s == [s[0]] + s[1..];
  }

  /**
   Two date-sorted orderings of the same well-formed rows are the same
   sequence: entries with equal dates are equal, so it does not matter
   whether the sort keeps ties in their original order.
   */
  lemma {:induction false} SortedOrderIsUnique(s: seq<Entry>, t: seq<Entry>)
    requires SortedByDate(s) && SortedByDate(t)
    requires multiset(s) == multiset(t)
    requires forall i :: 0 <= i < |s| ==> WellFormed(s[i])
    ensures s == t
  {
    if s == [] {
      assert |t| == |multiset(t)| == 0;
    } else {
      assert |t| == |multiset(t)| == |multiset(s)| == |s|;
      assert s[0] in multiset(t) && t[0] in multiset(s);
      var j :| 0 <= j < |t| && t[j] == s[0];
      var k :| 0 <= k < |s| && s[k] == t[0];
      assert t[0].date <= t[j].date && s[0].date <= s[k].date;
      assert WellFormed(s[0]) && WellFormed(s[k]);
      assert s[0] == t[0];
      TailMultiset(s);
      TailMultiset(t);
      SortedOrderIsUnique(s[1..], t[1..]);
    }
  }
}
