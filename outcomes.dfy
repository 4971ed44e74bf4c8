// The random activity synthesizer: the random source, the activity window and
// the arithmetic that turns random draws into a course, lesson, topic or quiz
// outcome.

module Outcomes {
  import opened Wrappers
  import opened Records

  /** `mt_rand`: a seeded stream of raw values, consumed one per draw. Only the
      range of a draw is promised, so any value in range can be the outcome. */
  class RandomSource {
    const stream: nat -> nat
    var cursor: nat

    constructor (stream: nat -> nat)
      ensures this.stream == stream && cursor == 0
    {
      this.stream := stream;
      cursor := 0;
    }

    /** `mt_rand(lo, hi)`. */
    method Draw(lo: int, hi: int) returns (x: int)
      requires lo <= hi
      modifies this`cursor
      ensures lo <= x <= hi
      ensures cursor == old(cursor) + 1
    {
      x := lo + stream(cursor) % (hi - lo + 1);
      cursor := cursor + 1;
    }
  }

  /** `random_date($start, $end)`. */
  method RandomDate(rng: RandomSource, start: int, end: int) returns (t: int)
    requires start <= end
    modifies rng`cursor
    ensures start <= t <= end
  {
    t := rng.Draw(start, end);
  }

  /** The activity window `[now - days, now]`, with whole days of 86400 seconds. */
  datatype Window = Window(start: int, end: int)
  {
    /** Wide enough for every draw of the generator: a start at least one day before the end. */
    predicate Wide()
    {
      start + Day <= end
    }
  }

  function WindowOf(now: int, days: int): (w: Window)
    ensures w.end == now
    ensures w.end - w.start == days * Day
    ensures w.Wide() <==> days >= 1
  {
    Window(now - days * Day, now)
  }

  /** `mt_rand(1, 100) <= completion_rate`: a rate of 0 (or less) never
      completes and a rate of 100 (or more) always does. */
  function IsCompleted(roll: int, rate: int): (done: bool)
    requires 1 <= roll <= 100
    ensures rate <= 0 ==> !done
    ensures rate >= 100 ==> done
    ensures done ==> rate >= 1
  {
    roll <= rate
  }

  /** `round(($percentage / 100) * $total_questions)`, in integer arithmetic
      (round half up, which is PHP's rounding for non-negative values). */
  function CorrectAnswers(percentage: int, total: int): (score: int)
    requires 0 <= percentage <= 100 && 0 <= total
    ensures 0 <= score <= total
    ensures percentage == 0 ==> score == 0
    ensures percentage == 100 ==> score == total
  {
    assert percentage * total <= 100 * total by {
      MulMono(percentage, 100, total);
    }
    (percentage * total + 50) / 100
  }

  lemma MulMono(a: int, b: int, c: int)
    requires a <= b && 0 <= c
    ensures a * c <= b * c
  {
    assert b * c - a * c == (b - a) * c;
  }

  /** `activity_updated`: the completion time when there is one, the start otherwise. */
  function Updated(started: int, completed: int): int
  {
    if completed != 0 then completed else started
  }

  /** The activity row written for a course, lesson or topic entry. */
  function NodeRow(user: int, course: Option<int>, post: int, kind: ContentType, e: NodeEntry): ActivityRow
  {
    ActivityRow(user, course, post, kind, e.status, e.started, e.completed, Updated(e.started, e.completed))
  }

  /** The activity row written for a quiz entry: always status 1. */
  function QuizRow(user: int, course: int, quiz: int, q: QuizEntry): ActivityRow
  {
    ActivityRow(user, Some(course), quiz, Quiz, 1, q.started, q.completed, q.completed)
  }

  /** The outcome rule for a course, lesson or topic drawn inside window `w`:
      started at least a day before the end; either completed inside the window
      (status 1) or not completed at all (status 0); rates 0 and 100 decide. */
  ghost predicate NodeOutcome(e: NodeEntry, w: Window, rate: int)
  {
    && w.start <= e.started <= w.end - Day
    && ((e.status == 1 && e.started <= e.completed <= w.end) || (e.status == 0 && e.completed == 0))
    && (rate <= 0 ==> e.status == 0)
    && (rate >= 100 ==> e.status == 1)
  }

  /** The outcome rule for a quiz: started at least an hour before the end,
      finished 5 to 30 minutes later, a percentage in [0, 100], passed exactly
      when the percentage reaches the pass rate, at most 10 correct answers. */
  ghost predicate QuizOutcome(q: QuizEntry, w: Window, passRate: int)
  {
    && w.start <= q.started <= w.end - Hour
    && 300 <= q.completed - q.started <= 1800
    && 0 <= q.percentage <= 100
    && (q.pass == 1 <==> q.percentage >= passRate)
    && (q.pass == 0 || q.pass == 1)
    && 0 <= q.score <= 10
  }

  /** The six meta rows of a quiz activity, in the order they are inserted,
      for an entry `q` with `total` questions of 10 points each. */
  function QuizMeta(q: QuizEntry, total: int): seq<MetaRow>
  {
    var id := q.activityId;
    [MetaRow(id, Percentage, q.percentage), MetaRow(id, Count, total), MetaRow(id, Score, q.score),
     MetaRow(id, Pass, q.pass), MetaRow(id, Points, q.score * 10), MetaRow(id, TotalPoints, total * 10)]
  }

  /** The two meta rows of a course activity with `steps` steps completed. */
  function CourseMeta(id: int, steps: int): seq<MetaRow>
  {
    [MetaRow(id, StepsTotal, 10), MetaRow(id, StepsCompleted, steps)]
  }

  /** The two meta rows of a lesson or topic activity. */
  function LessonMeta(e: NodeEntry): seq<MetaRow>
  {
    [MetaRow(e.activityId, StepsTotal, 1), MetaRow(e.activityId, StepsCompleted, e.status)]
  }

  lemma QuizMetaRowsOk(q: QuizEntry, total: int)
    ensures forall m :: m in QuizMeta(q, total) ==> QuizMetaOk(m, q, total)
  {
  }

  lemma CourseMetaRowsOk(e: NodeEntry, steps: int)
    requires e.status == 1 ==> steps == 10
    requires e.status != 1 ==> 1 <= steps <= 9
    ensures forall m :: m in CourseMeta(e.activityId, steps) ==> CourseMetaOk(m, e)
  {
  }

  lemma LessonMetaRowsOk(e: NodeEntry)
    ensures forall m :: m in LessonMeta(e) ==> LessonMetaOk(m, e)
  {
  }

  /** A quiz meta row as the generator writes it for entry `q` with `total`
      questions: the count is the question count, the points are 10 per correct
      answer and the total points 10 per question. */
  ghost predicate QuizMetaOk(m: MetaRow, q: QuizEntry, total: int)
  {
    && m.activityId == q.activityId
    && (m.key == Percentage ==> m.value == q.percentage)
    && (m.key == Count ==> m.value == total)
    && (m.key == Score ==> m.value == q.score)
    && (m.key == Pass ==> m.value == q.pass)
    && (m.key == Points ==> m.value == 10 * q.score)
    && (m.key == TotalPoints ==> m.value == 10 * total)
    && (m.key == Percentage || m.key == Count || m.key == Score || m.key == Pass || m.key == Points || m.key == TotalPoints)
  }

  /** A course meta row as the generator writes it for entry `e`. */
  ghost predicate CourseMetaOk(m: MetaRow, e: NodeEntry)
  {
    && m.activityId == e.activityId
    && (m.key == StepsTotal ==> m.value == 10)
    && (m.key == StepsCompleted ==> if e.status == 1 then m.value == 10 else 1 <= m.value <= 9)
    && (m.key == StepsTotal || m.key == StepsCompleted)
  }

  /** A lesson (or topic) meta row as the generator writes it for entry `e`. */
  ghost predicate LessonMetaOk(m: MetaRow, e: NodeEntry)
  {
    && m.activityId == e.activityId
    && (m.key == StepsTotal ==> m.value == 1)
    && (m.key == StepsCompleted ==> m.value == e.status)
    && (m.key == StepsTotal || m.key == StepsCompleted)
  }
}
