/**
 The distribution walk: the teaching days are visited in order with a topic
 cursor; while the cursor is inside the expanded topics the day gets the topic
 under it and the cursor moves on, and afterwards every day gets the fixed
 fallback label (scolaris_app.py, lines 142-161).
 */
module Distribution {

  import opened Calendar
  import opened TopicBank

  /** The topic of every teaching day left over once the expanded topics are used up. */
  const Fallback: Topic := "Review / Flex / Assessment"

  /** One row of the lesson plan. */
  datatype LessonRecord = LessonRecord(date: Date, day: Weekday, subject: string, topic: Topic)

  /** The record of teaching day `d`. */
  function RecordFor(d: Entry, subject: string, topic: Topic): LessonRecord
  {
    LessonRecord(d.date, d.day, subject, topic)
  }

  /** The topic the `i`-th teaching day receives. */
  function TopicAt(expanded: seq<Topic>, i: nat): Topic
  {
    if i < |expanded| then expanded[i] else Fallback
  }

  /** The walk over `days` with the cursor starting at `cursor`. */
  function Walk(expanded: seq<Topic>, days: seq<Entry>, subject: string, cursor: nat): (r: seq<LessonRecord>)
    ensures |r| == |days|
    decreases |days|
  {
    if days == [] then []
    else if cursor < |expanded| then
      [RecordFor(days[0], subject, expanded[cursor])] + Walk(expanded, days[1..], subject, cursor + 1)
    else
      [RecordFor(days[0], subject, Fallback)] + Walk(expanded, days[1..], subject, cursor)
  }

  /** The lesson plan: the walk over all teaching days from the first expanded topic. */
  function LessonPlan(expanded: seq<Topic>, days: seq<Entry>, subject: string): seq<LessonRecord>
  {
    Walk(expanded, days, subject, 0)
  }

  /** Record `i` of a walk belongs to day `i` and carries the topic `cursor + i` positions in. */
  lemma {:induction false} WalkAt(expanded: seq<Topic>, days: seq<Entry>, subject: string, cursor: nat, i: nat)
    requires i < |days|
    ensures Walk(expanded, days, subject, cursor)[i] == RecordFor(days[i], subject, TopicAt(expanded, cursor + i))
  {
    if i > 0 {
      var next := if cursor < |expanded| then cursor + 1 else cursor;
      WalkAt(expanded, days[1..], subject, next, i - 1);
    }
  }

  /**
   One record per teaching day, in day order: record `i` has the date, the
   weekday and the subject of the build, and the `i`-th expanded topic or,
   once those run out, the fallback.
   */
  lemma LessonPlanAt(expanded: seq<Topic>, days: seq<Entry>, subject: string)
    ensures |LessonPlan(expanded, days, subject)| == |days|
    ensures forall i :: 0 <= i < |days| ==>
              LessonPlan(expanded, days, subject)[i] == RecordFor(days[i], subject, TopicAt(expanded, i))
  {
    forall i | 0 <= i < |days|
      ensures LessonPlan(expanded, days, subject)[i] == RecordFor(days[i], subject, TopicAt(expanded, i))
    {
      WalkAt(expanded, days, subject, 0, i);
    }
  }

  /** The topics of a lesson plan, in order. */
  function Topics(plan: seq<LessonRecord>): (r: seq<Topic>)
    ensures |r| == |plan|
    ensures forall i :: 0 <= i < |plan| ==> r[i] == plan[i].topic
  {
    seq(|plan|, i requires 0 <= i < |plan| => plan[i].topic)
  }

  /** With at least as many expanded topics as days, the plan teaches their prefix and drops the rest. */
  lemma ExcessTopicsDropped(expanded: seq<Topic>, days: seq<Entry>, subject: string)
    requires |days| <= |expanded|
    ensures Topics(LessonPlan(expanded, days, subject)) == expanded[..|days|]
  {
    LessonPlanAt(expanded, days, subject);
  }

  /** With fewer expanded topics than days, the plan teaches all of them and pads with the fallback. */
  lemma LeftoverDaysGetFallback(expanded: seq<Topic>, days: seq<Entry>, subject: string)
    requires |expanded| <= |days|
    ensures Topics(LessonPlan(expanded, days, subject))
            == expanded + seq(|days| - |expanded|, _ => Fallback)
  {
    LessonPlanAt(expanded, days, subject);
  }

  /** The subject a plan is built for does not affect which topics it teaches. */
  lemma TopicsIgnoreSubject(expanded: seq<Topic>, days: seq<Entry>, subject: string, subject': string)
    ensures Topics(LessonPlan(expanded, days, subject)) == Topics(LessonPlan(expanded, days, subject'))
  {
    LessonPlanAt(expanded, days, subject);
    LessonPlanAt(expanded, days, subject');
  }

  function Min(a: int, b: int): int
  {
    if a < b then a else b
  }

  /** The distribution loop, appending one record per teaching day. */
  method DistributeTopics(expanded: seq<Topic>, days: seq<Entry>, subject: string)
    returns (plan: seq<LessonRecord>)
    ensures plan == LessonPlan(expanded, days, subject)
    ensures |plan| == |days|
    ensures forall i :: 0 <= i < |days| ==> plan[i] == RecordFor(days[i], subject, TopicAt(expanded, i))
  {
    plan := [];
    var topicIndex := 0;
    var i := 0;
    while i < |days|
      invariant 0 <= i <= |days|
      invariant topicIndex == Min(i, |expanded|)
      invariant plan + Walk(expanded, days[i..], subject, topicIndex) == LessonPlan(expanded, days, subject)
    {
      var row := days[i];
      assert days[i..][1..] == days[i + 1..];
      if topicIndex < |expanded| {
        plan := plan + [RecordFor(row, subject, expanded[topicIndex])];
        topicIndex := topicIndex + 1;
      } else {
        plan := plan + [RecordFor(row, subject, Fallback)];
      }
      i := i + 1;
    }
    assert days[i..] == [];
    LessonPlanAt(expanded, days, subject);
  }
}
