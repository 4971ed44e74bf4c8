// Values shared by the activity simulator: the rows it writes, the per-node
// entries it remembers, the simulation ledger and the user-meta values.

module Wrappers {
  datatype Option<+T> = None | Some(value: T)

  datatype Result<+T, +E> = Success(value: T) | Failure(error: E)
}

module Records {
  import opened Wrappers

  const Day: int := 86400
  const Hour: int := 3600

  /** The `activity_type` column of `learndash_user_activity`. */
  datatype ContentType = Course | Lesson | Topic | Quiz

  /** One row of `learndash_user_activity`. A course row leaves the `course_id`
      column to its default, written here as None. */
  datatype ActivityRow = ActivityRow(
    userId: int,
    courseId: Option<int>,
    postId: int,
    activityType: ContentType,
    status: int,
    started: int,
    completed: int,
    updated: int)

  /** The `meta_key` values the generator writes to `learndash_user_activity_meta`. */
  datatype MetaKey = StepsTotal | StepsCompleted | Percentage | Count | Score | Pass | Points | TotalPoints

  datatype MetaRow = MetaRow(activityId: int, key: MetaKey, value: int)

  /** What the generator keeps for a course, lesson or topic it visited. */
  datatype NodeEntry = NodeEntry(activityId: int, started: int, completed: int, status: int, activityIds: seq<int>)

  /** The entry kept when the activity insert failed: every field zero, no id. */
  const Unrecorded: NodeEntry := NodeEntry(0, 0, 0, 0, [])

  /** What the generator keeps for a quiz it visited. */
  datatype QuizEntry = QuizEntry(
    activityId: int,
    started: int,
    completed: int,
    score: int,
    percentage: int,
    pass: int,
    activityIds: seq<int>)

  const UnrecordedQuiz: QuizEntry := QuizEntry(0, 0, 0, 0, 0, 0, [])

  /** Everything generated for one student: the entry per course, lesson, topic
      and quiz, and every activity id inserted, in insertion order. */
  datatype StudentActivity = StudentActivity(
    courses: map<int, NodeEntry>,
    lessons: map<int, NodeEntry>,
    topics: map<int, NodeEntry>,
    quizzes: map<int, QuizEntry>,
    activityIds: seq<int>)

  const NoActivity: StudentActivity := StudentActivity(map[], map[], map[], map[], [])

  /** The simulation ledger, the option `las_simulation_data`. */
  datatype Batch = Batch(students: seq<int>, courses: seq<int>, timestamp: string, activity: map<int, StudentActivity>)

  /** One course's entry in the `_sfwd-course_progress` user meta. */
  datatype Progress = Progress(completed: int, total: int)

  /** One element of the `_sfwd-quizzes` user-meta list. */
  datatype QuizAttempt = QuizAttempt(
    quiz: int,
    score: int,
    count: int,
    pass: int,
    rank: string,
    time: int,
    proQuizId: int,
    course: int,
    points: int,
    totalPoints: int,
    percentage: int,
    timespent: int,
    hasGraded: bool,
    statisticRefId: int,
    started: int,
    completed: int)

  /** User-meta keys holding one value each: `course_completed_<course>`,
      `completed_certificate_<course>`, `completed_<course>_<step>`, and any other
      key, by name. */
  datatype LegacyKey =
    | CourseCompleted(course: int)
    | CompletedCertificate(course: int)
    | StepCompleted(course: int, step: int)
    | OtherKey(name: string)

  /** The ids of every activity row listed for some student. */
  function ActivityIds(activity: map<int, StudentActivity>): set<int>
  {
    set st, k | st in activity && k in activity[st].activityIds :: k
  }

  /** The ids of every activity row a ledger lists, over all its students. */
  function LedgerIds(b: Batch): set<int>
  {
    ActivityIds(b.activity)
  }

  /** The `WP_Error` codes of the generator, plus `DrawRange` for the
      `ValueError` that `mt_rand` raises when the window is shorter than a day. */
  datatype Error = NoStudents | NoCourses | GenerationFailed | DrawRange | NoData | ExportFailed

  /** No student appears twice in the list. */
  predicate NoDuplicates(s: seq<int>)
  {
    forall i, j :: 0 <= i < j < |s| ==> s[i] != s[j]
  }
}
