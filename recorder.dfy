// The batch recorder: `generate` and the traversal under it. For each student
// it walks every course, the course's lessons, each lesson's quizzes and
// topics, each topic's quizzes, then the course-level quizzes not yet visited;
// every node gets one random outcome, one activity row and its meta rows.

module Recorder {
  import opened Wrappers
  import opened Records
  import opened Storage
  import opened Outcomes
  import opened Aggregates

  /** The posted parameters; a None field was omitted. */
  datatype Request = Request(
    students: Option<seq<int>>,
    courses: Option<seq<int>>,
    activityDays: Option<int>,
    completionRate: Option<int>,
    quizPassRate: Option<int>)

  datatype Settings = Settings(students: seq<int>, courses: seq<int>, activityDays: int, completionRate: int, quizPassRate: int)

  /** `current_time('timestamp')`, `time()` and `current_time('mysql')`. */
  datatype Clock = Clock(now: int, time: int, mysql: string)

  /** The content hierarchy and post meta the generator queries. The two
      LearnDash queries are foreign code that may throw: a pair missing from
      `lessons` or `topics` is a query that raised. `get_posts` never throws: a
      step or course missing from the quiz maps has no quizzes. */
  datatype Content = Content(
    lessons: map<(int, int), seq<int>>,   // (course, student): learndash_get_course_lessons_list
    topics: map<(int, int), seq<int>>,    // (lesson, course): learndash_topic_dots
    stepQuizzes: map<int, seq<int>>,      // lesson or topic: get_lesson_quizzes
    courseQuizzes: map<int, seq<int>>,    // course: get_course_quizzes
    certificates: map<int, int>,          // course: post meta 'certificate'
    proQuizIds: map<int, int>)            // quiz: post meta 'quiz_pro_id'

  function StepQuizzes(content: Content, step: int): seq<int>
  {
    if step in content.stepQuizzes then content.stepQuizzes[step] else []
  }

  function CourseQuizzes(content: Content, course: int): seq<int>
  {
    if course in content.courseQuizzes then content.courseQuizzes[course] else []
  }

  function ProQuizId(content: Content, quiz: int): int
  {
    if quiz in content.proQuizIds then content.proQuizIds[quiz] else 0
  }

  /** A successful `generate`: the number of students in the message, and the ledger. */
  datatype Generated = Generated(studentCount: nat, data: Batch)

  /** `wp_parse_args` over the defaults: no students, no courses, 30 days,
      an 80% completion rate and a 75% pass rate. */
  function ParseArgs(req: Request): (s: Settings)
    ensures req.students.None? ==> s.students == []
    ensures req.courses.None? ==> s.courses == []
    ensures req.activityDays.None? ==> s.activityDays == 30
    ensures req.completionRate.None? ==> s.completionRate == 80
    ensures req.quizPassRate.None? ==> s.quizPassRate == 75
    ensures req.students.Some? ==> s.students == req.students.value
    ensures req.courses.Some? ==> s.courses == req.courses.value
    ensures req.activityDays.Some? ==> s.activityDays == req.activityDays.value
    ensures req.completionRate.Some? ==> s.completionRate == req.completionRate.value
    ensures req.quizPassRate.Some? ==> s.quizPassRate == req.quizPassRate.value
  {
    Settings(
      match req.students case Some(x) => x case None => [],
      match req.courses case Some(x) => x case None => [],
      match req.activityDays case Some(x) => x case None => 30,
      match req.completionRate case Some(x) => x case None => 80,
      match req.quizPassRate case Some(x) => x case None => 75)
  }

  // ---------------------------------------------------------------------------
  // How the activity tables grow during one student's traversal

  /** From `t0` to `t1` the tables gained exactly the rows `ids`, all for `user`,
      with fresh increasing ids; old rows are untouched; meta rows were only
      appended, each for one of the new ids. */
  ghost predicate Grew(t0: Tables, t1: Tables, ids: seq<int>, user: int)
  {
    && t0.nextId <= t1.nextId
    && (forall k :: k in t0.rows ==> k in t1.rows && t1.rows[k] == t0.rows[k])
    && (forall k :: k in t1.rows ==> k in t0.rows || k in ids)
    && (forall i :: 0 <= i < |ids| ==> t0.nextId <= ids[i] < t1.nextId && ids[i] in t1.rows && t1.rows[ids[i]].userId == user)
    && (forall i, j :: 0 <= i < j < |ids| ==> ids[i] < ids[j])
    && |t0.meta| <= |t1.meta| && t1.meta[..|t0.meta|] == t0.meta
    && (forall j :: |t0.meta| <= j < |t1.meta| ==> t1.meta[j].activityId in ids)
  }

  lemma GrewCompose(t0: Tables, t1: Tables, t2: Tables, a: seq<int>, b: seq<int>, user: int)
    requires Grew(t0, t1, a, user) && Grew(t1, t2, b, user)
    ensures Grew(t0, t2, a + b, user)
  {
    var ab := a + b;
    forall i | 0 <= i < |ab|
      ensures t0.nextId <= ab[i] < t2.nextId && ab[i] in t2.rows && t2.rows[ab[i]].userId == user
    {
      if i < |a| {
        assert ab[i] == a[i];
      } else {
        assert ab[i] == b[i - |a|];
      }
    }
    forall i, j | 0 <= i < j < |ab|
      ensures ab[i] < ab[j]
    {
      if j < |a| {
      } else if i < |a| {
        assert ab[i] == a[i] && ab[j] == b[j - |a|];
      } else {
        assert ab[i] == b[i - |a|] && ab[j] == b[j - |a|];
      }
    }
    forall k | k in t2.rows
      ensures k in t0.rows || k in ab
    {
      if k !in t1.rows {
        assert k in b;
      }
    }
    forall j | |t0.meta| <= j < |t2.meta|
      ensures t2.meta[j].activityId in ab
    {
      if j < |t1.meta| {
        assert t2.meta[j] == t1.meta[j];
      }
    }
    assert t2.meta[..|t0.meta|] == t1.meta[..|t1.meta|][..|t0.meta|];
  }

  /** From `a0` to `a` the student's id list only grew, and by exactly the rows
      the tables gained from `t0` to `t1`. */
  ghost predicate Progressed(a0: StudentActivity, a: StudentActivity, t0: Tables, t1: Tables, user: int)
  {
    && a0.activityIds <= a.activityIds
    && Grew(t0, t1, a.activityIds[|a0.activityIds|..], user)
  }

  /** One more node recorded: its ids are appended to the list. */
  lemma ProgressedStep(a0: StudentActivity, a: StudentActivity, t0: Tables, t1: Tables, t2: Tables, ids: seq<int>, a2: StudentActivity, user: int)
    requires Progressed(a0, a, t0, t1, user) && Grew(t1, t2, ids, user)
    requires a2.activityIds == a.activityIds + ids
    ensures Progressed(a0, a2, t0, t2, user)
  {
    GrewCompose(t0, t1, t2, a.activityIds[|a0.activityIds|..], ids, user);
    assert a2.activityIds[|a0.activityIds|..] == a.activityIds[|a0.activityIds|..] + ids;
  }

  lemma ProgressedCompose(a0: StudentActivity, a1: StudentActivity, a2: StudentActivity, t0: Tables, t1: Tables, t2: Tables, user: int)
    requires Progressed(a0, a1, t0, t1, user) && Progressed(a1, a2, t1, t2, user)
    ensures Progressed(a0, a2, t0, t2, user)
  {
    var n0, n1 := |a0.activityIds|, |a1.activityIds|;
    GrewCompose(t0, t1, t2, a1.activityIds[n0..], a2.activityIds[n1..], user);
    assert a2.activityIds[..n1] == a1.activityIds;
    assert a2.activityIds[n0..] == a1.activityIds[n0..] + a2.activityIds[n1..];
  }

  lemma ProgressedNothing(a: StudentActivity, t: Tables, user: int)
    ensures Progressed(a, a, t, t, user)
  {
    GrewNothing(t, user);
    assert a.activityIds[|a.activityIds|..] == [];
  }

  // ---------------------------------------------------------------------------
  // What an entry promises about the row behind it

  /** A course entry names exactly one row: a `course` row for this student and
      course that agrees with the entry, whose outcome follows the course rule.
      Only when some INSERT may fail (`full` false) can it instead be the zeroed
      entry of a failed insert. */
  ghost predicate CourseEntryOk(e: NodeEntry, course: int, rows: map<int, ActivityRow>, user: int, w: Window, rate: int, full: bool)
  {
    (!full && e == Unrecorded) ||
    (&& e.activityIds == [e.activityId]
     && e.activityId in rows
     && rows[e.activityId] == NodeRow(user, None, course, Course, e)
     && NodeOutcome(e, w, rate))
  }

  /** A lesson or topic entry: one row of type `lesson` (topics included) for
      this student and step, inside some course; or, when some INSERT may fail,
      the zeroed entry. */
  ghost predicate StepEntryOk(e: NodeEntry, step: int, rows: map<int, ActivityRow>, user: int, w: Window, rate: int, full: bool)
  {
    (!full && e == Unrecorded) ||
    (&& e.activityIds == [e.activityId]
     && e.activityId in rows
     && rows[e.activityId].courseId.Some?
     && rows[e.activityId] == NodeRow(user, rows[e.activityId].courseId, step, Lesson, e)
     && NodeOutcome(e, w, rate))
  }

  /** A quiz entry: one `quiz` row with status 1 for this student and quiz,
      inside some course, whose outcome follows the quiz rule; or, when some
      INSERT may fail, the zeroed entry. */
  ghost predicate QuizEntryOk(q: QuizEntry, quiz: int, rows: map<int, ActivityRow>, user: int, w: Window, passRate: int, full: bool)
  {
    (!full && q == UnrecordedQuiz) ||
    (&& q.activityIds == [q.activityId]
     && q.activityId in rows
     && rows[q.activityId].courseId.Some?
     && rows[q.activityId] == QuizRow(user, rows[q.activityId].courseId.value, quiz, q)
     && QuizOutcome(q, w, passRate))
  }

  /** Every entry of a student's activity is backed as above; `full` says
      that every INSERT of the connection succeeds. */
  ghost predicate Recorded(act: StudentActivity, rows: map<int, ActivityRow>, user: int, w: Window, s: Settings, full: bool)
  {
    && (forall c :: c in act.courses ==> CourseEntryOk(act.courses[c], c, rows, user, w, s.completionRate, full))
    && (forall l :: l in act.lessons ==> StepEntryOk(act.lessons[l], l, rows, user, w, s.completionRate, full))
    && (forall t :: t in act.topics ==> StepEntryOk(act.topics[t], t, rows, user, w, s.completionRate, full))
    && (forall q :: q in act.quizzes ==> QuizEntryOk(act.quizzes[q], q, rows, user, w, s.quizPassRate, full))
  }

  /** No entry of the activity is the zeroed entry of a failed insert. */
  ghost predicate NoneZeroed(act: StudentActivity)
  {
    && (forall c :: c in act.courses ==> act.courses[c] != Unrecorded)
    && (forall l :: l in act.lessons ==> act.lessons[l] != Unrecorded)
    && (forall t :: t in act.topics ==> act.topics[t] != Unrecorded)
    && (forall q :: q in act.quizzes ==> act.quizzes[q] != UnrecordedQuiz)
  }

  /** When every INSERT succeeds, no entry is zeroed. */
  lemma RecordedFull(act: StudentActivity, rows: map<int, ActivityRow>, user: int, w: Window, s: Settings)
    requires Recorded(act, rows, user, w, s, true)
    ensures NoneZeroed(act)
  {
  }

  /** Entries stay backed while rows are only added. */
  lemma RecordedMono(act: StudentActivity, rows: map<int, ActivityRow>, rows2: map<int, ActivityRow>, user: int, w: Window, s: Settings, full: bool)
    requires Recorded(act, rows, user, w, s, full)
    requires forall k :: k in rows ==> k in rows2 && rows2[k] == rows[k]
    ensures Recorded(act, rows2, user, w, s, full)
  {
  }

  lemma GrewNothing(t: Tables, user: int)
    ensures Grew(t, t, [], user)
  {
    assert t.meta[..|t.meta|] == t.meta;
  }

  /** One accepted activity insert. */
  lemma GrewRow(t0: Tables, t1: Tables, user: int)
    requires forall k :: k in t0.rows ==> k < t0.nextId
    requires t1.nextId == t0.nextId + 1 && t1.meta == t0.meta
    requires t0.nextId in t1.rows && t1.rows == t0.rows[t0.nextId := t1.rows[t0.nextId]] && t1.rows[t0.nextId].userId == user
    ensures Grew(t0, t1, [t0.nextId], user)
  {
    assert t1.meta[..|t0.meta|] == t0.meta;
  }

  /** Meta rows appended for ids already inserted. */
  lemma GrewMeta(t0: Tables, t1: Tables, t2: Tables, ids: seq<int>, user: int)
    requires Grew(t0, t1, ids, user)
    requires t2.rows == t1.rows && t2.nextId == t1.nextId
    requires t1.meta <= t2.meta && forall j :: |t1.meta| <= j < |t2.meta| ==> t2.meta[j].activityId in ids
    ensures Grew(t0, t2, ids, user)
  {
    assert t2.meta[..|t0.meta|] == t1.meta[..|t0.meta|];
    forall j | |t0.meta| <= j < |t2.meta|
      ensures t2.meta[j].activityId in ids
    {
      if j < |t1.meta| {
        assert t2.meta[j] == t1.meta[j];
      }
    }
  }

  // ---------------------------------------------------------------------------
  // One node

  /** The draws shared by courses, lessons and topics: a start at least a day
      before the end of the window, a completion roll against the rate, and a
      completion time between the start and the end when the roll succeeded. */
  method DrawNodeOutcome(rng: RandomSource, w: Window, rate: int) returns (started: int, completed: int, done: bool)
    requires w.Wide()
    modifies rng`cursor
    ensures NodeOutcome(NodeEntry(0, started, completed, if done then 1 else 0, []), w, rate)
  {
    started := RandomDate(rng, w.start, w.end - Day);
    var roll := rng.Draw(1, 100);
    done := IsCompleted(roll, rate);
    completed := 0;
    if done {
      completed := RandomDate(rng, started, w.end);
    }
  }

  /** The draws of a quiz: a start at least an hour before the end of the
      window, a percentage, a question count in [5, 10], the correct answers
      that percentage gives, and 5 to 30 minutes spent. */
  method DrawQuizOutcome(rng: RandomSource, w: Window, passRate: int)
    returns (started: int, completed: int, percentage: int, passed: bool, total: int, score: int)
    requires w.Wide()
    modifies rng`cursor
    ensures QuizOutcome(QuizEntry(0, started, completed, score, percentage, if passed then 1 else 0, []), w, passRate)
    ensures 5 <= total <= 10 && score <= total
  {
    started := RandomDate(rng, w.start, w.end - Hour);
    percentage := rng.Draw(0, 100);
    passed := percentage >= passRate;
    total := rng.Draw(5, 10);
    score := CorrectAnswers(percentage, total);
    var spent := rng.Draw(300, 1800);
    completed := started + spent;
  }

  /** `$wpdb->insert` of one activity row, with what it adds to the tables. */
  method InsertActivity(db: Database, row: ActivityRow) returns (ok: bool, id: int)
    requires db.Valid()
    modifies db`rows, db`nextId, db`attempts
    ensures db.Valid()
    ensures db.attempts == old(db.attempts) + 1
    ensures ok == db.accepts(old(db.attempts))
    ensures Grew(old(db.Snapshot()), db.Snapshot(), if ok then [id] else [], row.userId)
    ensures ok ==> 0 < id < db.nextId && id in db.rows && db.rows[id] == row
  {
    ghost var t0 := db.Snapshot();
    ok, id := db.InsertRow(row);
    if ok {
      GrewRow(t0, db.Snapshot(), row.userId);
    } else {
      GrewNothing(t0, row.userId);
    }
  }

  /** The two meta rows of a course activity: `steps_total` 10, then
      `steps_completed` 10 when completed or a draw in [1, 9] otherwise. */
  method WriteCourseMeta(db: Database, rng: RandomSource, e: NodeEntry) returns (steps: int)
    requires db.Valid() && 0 < e.activityId < db.nextId
    modifies db`meta, db`attempts, rng`cursor
    ensures db.Valid()
    ensures e.status == 1 ==> steps == 10
    ensures e.status != 1 ==> 1 <= steps <= 9
    ensures db.attempts == old(db.attempts) + 2
    ensures db.meta == old(db.meta) + Accepted(CourseMeta(e.activityId, steps), db.accepts, old(db.attempts))
  {
    steps := 10;
    if e.status != 1 {
      steps := rng.Draw(1, 9);
    }
    db.InsertMetaRows(CourseMeta(e.activityId, steps));
  }

  /** The course row and, when it went in, its meta rows. The row insert is
      the first INSERT, so it succeeds exactly when that INSERT is accepted. */
  method WriteCourseRows(db: Database, rng: RandomSource, student: int, course: int, started: int, completed: int, done: bool)
    returns (e: NodeEntry, ghost steps: int)
    requires db.Valid()
    modifies db`rows, db`meta, db`nextId, db`attempts, rng`cursor
    ensures db.Valid()
    ensures Grew(old(db.Snapshot()), db.Snapshot(), e.activityIds, student)
    ensures (e != Unrecorded) == db.accepts(old(db.attempts))
    ensures e == Unrecorded ==> db.meta == old(db.meta)
    ensures e != Unrecorded ==>
              && e == NodeEntry(e.activityId, started, completed, if done then 1 else 0, [e.activityId])
              && e.activityId in db.rows && db.rows[e.activityId] == NodeRow(student, None, course, Course, e)
              && (done ==> steps == 10) && (!done ==> 1 <= steps <= 9)
              && db.meta == old(db.meta) + Accepted(CourseMeta(e.activityId, steps), db.accepts, old(db.attempts) + 1)
    ensures forall j :: |old(db.meta)| <= j < |db.meta| ==> CourseMetaOk(db.meta[j], e)
  {
    ghost var t0 := db.Snapshot();
    var status := if done then 1 else 0;
    var inserted, id := InsertActivity(db, ActivityRow(student, None, course, Course, status, started, completed, Updated(started, completed)));
    e := Unrecorded;
    steps := 0;
    if inserted {
      e := NodeEntry(id, started, completed, status, [id]);
      ghost var t1 := db.Snapshot();
      steps := WriteCourseMeta(db, rng, e);
      CourseMetaRowsOk(e, steps);
      AppendedIn(t1.meta, Accepted(CourseMeta(id, steps), db.accepts, old(db.attempts) + 1), CourseMeta(id, steps));
      GrewMeta(t0, t1, db.Snapshot(), [id], student);
    }
  }

  /** `generate_course_activity`. */
  method GenerateCourseActivity(db: Database, rng: RandomSource, student: int, course: int, s: Settings, w: Window,
                                clock: Clock, content: Content) returns (e: NodeEntry, ghost steps: int)
    requires db.Valid() && w.Wide()
    modifies db`rows, db`meta, db`nextId, db`attempts, db`courseProgress, db`legacy, rng`cursor
    ensures db.Valid()
    ensures Grew(old(db.Snapshot()), db.Snapshot(), e.activityIds, student)
    ensures (e != Unrecorded) == db.accepts(old(db.attempts))
    ensures CourseEntryOk(e, course, db.rows, student, w, s.completionRate, db.AlwaysAccepts())
    ensures forall j :: |old(db.meta)| <= j < |db.meta| ==> CourseMetaOk(db.meta[j], e)
    ensures e == Unrecorded ==> db.meta == old(db.meta) && db.courseProgress == old(db.courseProgress) && db.legacy == old(db.legacy)
    ensures e != Unrecorded ==>
              db.courseProgress == old(db.courseProgress)[student := ProgressAfter(StoredProgress(old(db.courseProgress), student), course, e.status == 1)]
    ensures e != Unrecorded && e.status == 1 ==>
              db.legacy == old(db.legacy)[student := CourseMarkers(StoredLegacy(old(db.legacy), student), course, clock.time, content.certificates)]
    ensures e != Unrecorded && e.status == 0 ==> db.legacy == old(db.legacy)
    ensures e != Unrecorded ==>
              && (e.status == 1 ==> steps == 10) && (e.status != 1 ==> 1 <= steps <= 9)
              && db.meta == old(db.meta) + Accepted(CourseMeta(e.activityId, steps), db.accepts, old(db.attempts) + 1)
    ensures UserMetaGrew(old(db.Mark()), db.Mark(), {student})
  {
    ghost var m0 := db.Mark();
    var started, completed, done := DrawNodeOutcome(rng, w, s.completionRate);
    e, steps := WriteCourseRows(db, rng, student, course, started, completed, done);
    ghost var m1 := db.Mark();
    UserMetaSame(m0, m1, {student});
    if e != Unrecorded {
      UpdateCourseProgress(db, student, course, done, clock.time, content.certificates);
      MetaGrewStep(m0, m1, db.Mark(), student);
    }
  }

  /** The two meta rows of a lesson or topic activity: `steps_total` 1 and
      `steps_completed` equal to the status. */
  method WriteLessonMeta(db: Database, e: NodeEntry)
    requires db.Valid() && 0 < e.activityId < db.nextId
    modifies db`meta, db`attempts
    ensures db.Valid()
    ensures db.attempts == old(db.attempts) + 2
    ensures db.meta == old(db.meta) + Accepted(LessonMeta(e), db.accepts, old(db.attempts))
  {
    db.InsertMetaRows(LessonMeta(e));
  }

  /** The lesson (or topic) row and, when it went in, its meta rows. */
  method WriteLessonRows(db: Database, student: int, course: int, step: int, started: int, completed: int, done: bool)
    returns (e: NodeEntry)
    requires db.Valid()
    modifies db`rows, db`meta, db`nextId, db`attempts
    ensures db.Valid()
    ensures Grew(old(db.Snapshot()), db.Snapshot(), e.activityIds, student)
    ensures (e != Unrecorded) == db.accepts(old(db.attempts))
    ensures e == Unrecorded ==> db.meta == old(db.meta)
    ensures e != Unrecorded ==>
              && e == NodeEntry(e.activityId, started, completed, if done then 1 else 0, [e.activityId])
              && e.activityId in db.rows && db.rows[e.activityId] == NodeRow(student, Some(course), step, Lesson, e)
              && db.meta == old(db.meta) + Accepted(LessonMeta(e), db.accepts, old(db.attempts) + 1)
    ensures forall j :: |old(db.meta)| <= j < |db.meta| ==> LessonMetaOk(db.meta[j], e)
  {
    ghost var t0 := db.Snapshot();
    var status := if done then 1 else 0;
    var inserted, id := InsertActivity(db, ActivityRow(student, Some(course), step, Lesson, status, started, completed, Updated(started, completed)));
    e := Unrecorded;
    if inserted {
      e := NodeEntry(id, started, completed, status, [id]);
      ghost var t1 := db.Snapshot();
      WriteLessonMeta(db, e);
      LessonMetaRowsOk(e);
      AppendedIn(t1.meta, Accepted(LessonMeta(e), db.accepts, old(db.attempts) + 1), LessonMeta(e));
      GrewMeta(t0, t1, db.Snapshot(), [id], student);
    }
  }

  /** `generate_lesson_activity`, for a lesson or (through the topic path) a topic. */
  method GenerateLessonActivity(db: Database, rng: RandomSource, student: int, course: int, step: int, s: Settings, w: Window,
                                clock: Clock) returns (e: NodeEntry)
    requires db.Valid() && w.Wide()
    modifies db`rows, db`meta, db`nextId, db`attempts, db`lessonCompleted, db`legacy, rng`cursor
    ensures db.Valid()
    ensures Grew(old(db.Snapshot()), db.Snapshot(), e.activityIds, student)
    ensures (e != Unrecorded) == db.accepts(old(db.attempts))
    ensures StepEntryOk(e, step, db.rows, student, w, s.completionRate, db.AlwaysAccepts())
    ensures e != Unrecorded ==> db.rows[e.activityId].courseId == Some(course)
    ensures forall j :: |old(db.meta)| <= j < |db.meta| ==> LessonMetaOk(db.meta[j], e)
    ensures e == Unrecorded ==> db.meta == old(db.meta)
    ensures e == Unrecorded || e.status == 0 ==> db.lessonCompleted == old(db.lessonCompleted) && db.legacy == old(db.legacy)
    ensures e != Unrecorded && e.status == 1 ==>
              && db.lessonCompleted == old(db.lessonCompleted)[student := StepsAfter(StoredSteps(old(db.lessonCompleted), student), course, step, clock.time)]
              && db.legacy == old(db.legacy)[student := StoredLegacy(old(db.legacy), student)[StepCompleted(course, step) := clock.time]]
    ensures e != Unrecorded ==> db.meta == old(db.meta) + Accepted(LessonMeta(e), db.accepts, old(db.attempts) + 1)
    ensures UserMetaGrew(old(db.Mark()), db.Mark(), {student})
  {
    ghost var m0 := db.Mark();
    var started, completed, done := DrawNodeOutcome(rng, w, s.completionRate);
    e := WriteLessonRows(db, student, course, step, started, completed, done);
    ghost var m1 := db.Mark();
    UserMetaSame(m0, m1, {student});
    if e != Unrecorded && done {
      MarkLessonComplete(db, student, course, step, clock.time);
      MetaGrewStep(m0, m1, db.Mark(), student);
    }
  }

  /** `generate_topic_activity`: the lesson rule applied to the topic's id. The
      row is stored with type `lesson`, and a completed topic is marked in
      `_sfwd-lesson_completed` and `completed_<course>_<topic>` as a lesson. */
  method GenerateTopicActivity(db: Database, rng: RandomSource, student: int, course: int, lesson: int, topic: int, s: Settings,
                               w: Window, clock: Clock) returns (e: NodeEntry)
    requires db.Valid() && w.Wide()
    modifies db`rows, db`meta, db`nextId, db`attempts, db`lessonCompleted, db`legacy, rng`cursor
    ensures db.Valid()
    ensures Grew(old(db.Snapshot()), db.Snapshot(), e.activityIds, student)
    ensures (e != Unrecorded) == db.accepts(old(db.attempts))
    ensures StepEntryOk(e, topic, db.rows, student, w, s.completionRate, db.AlwaysAccepts())
    ensures e != Unrecorded ==>
              && db.rows[e.activityId].activityType == Lesson && db.rows[e.activityId].postId == topic
              && db.rows[e.activityId].courseId == Some(course)
    ensures forall j :: |old(db.meta)| <= j < |db.meta| ==> LessonMetaOk(db.meta[j], e)
    ensures e == Unrecorded ==> db.meta == old(db.meta)
    ensures e == Unrecorded || e.status == 0 ==> db.lessonCompleted == old(db.lessonCompleted) && db.legacy == old(db.legacy)
    ensures e != Unrecorded && e.status == 1 ==>
              && db.lessonCompleted == old(db.lessonCompleted)[student := StepsAfter(StoredSteps(old(db.lessonCompleted), student), course, topic, clock.time)]
              && db.legacy == old(db.legacy)[student := StoredLegacy(old(db.legacy), student)[StepCompleted(course, topic) := clock.time]]
    ensures e != Unrecorded ==> db.meta == old(db.meta) + Accepted(LessonMeta(e), db.accepts, old(db.attempts) + 1)
    ensures UserMetaGrew(old(db.Mark()), db.Mark(), {student})
  {
    e := GenerateLessonActivity(db, rng, student, course, topic, s, w, clock);
  }

  /** The six meta rows of a quiz activity. */
  method WriteQuizMeta(db: Database, q: QuizEntry, total: int)
    requires db.Valid() && 0 < q.activityId < db.nextId
    modifies db`meta, db`attempts
    ensures db.Valid()
    ensures db.attempts == old(db.attempts) + 6
    ensures db.meta == old(db.meta) + Accepted(QuizMeta(q, total), db.accepts, old(db.attempts))
  {
    db.InsertMetaRows(QuizMeta(q, total));
  }

  /** The quiz row and, when it went in, its meta rows. */
  method WriteQuizRows(db: Database, student: int, course: int, quiz: int, started: int, completed: int,
                       score: int, percentage: int, passed: bool, total: int) returns (q: QuizEntry)
    requires db.Valid()
    modifies db`rows, db`meta, db`nextId, db`attempts
    ensures db.Valid()
    ensures Grew(old(db.Snapshot()), db.Snapshot(), q.activityIds, student)
    ensures (q != UnrecordedQuiz) == db.accepts(old(db.attempts))
    ensures q == UnrecordedQuiz ==> db.meta == old(db.meta)
    ensures q != UnrecordedQuiz ==>
              && q == QuizEntry(q.activityId, started, completed, score, percentage, if passed then 1 else 0, [q.activityId])
              && q.activityId in db.rows && db.rows[q.activityId] == QuizRow(student, course, quiz, q)
              && db.meta == old(db.meta) + Accepted(QuizMeta(q, total), db.accepts, old(db.attempts) + 1)
    ensures forall j :: |old(db.meta)| <= j < |db.meta| ==> QuizMetaOk(db.meta[j], q, total)
  {
    ghost var t0 := db.Snapshot();
    var inserted, id := InsertActivity(db, ActivityRow(student, Some(course), quiz, Quiz, 1, started, completed, completed));
    q := UnrecordedQuiz;
    if inserted {
      q := QuizEntry(id, started, completed, score, percentage, if passed then 1 else 0, [id]);
      ghost var t1 := db.Snapshot();
      WriteQuizMeta(db, q, total);
      QuizMetaRowsOk(q, total);
      AppendedIn(t1.meta, Accepted(QuizMeta(q, total), db.accepts, old(db.attempts) + 1), QuizMeta(q, total));
      GrewMeta(t0, t1, db.Snapshot(), [id], student);
    }
  }

  /** `generate_quiz_activity`. The lesson or topic it was reached through is
      not stored anywhere. `total` is the question count drawn. */
  method GenerateQuizActivity(db: Database, rng: RandomSource, student: int, course: int, step: int, quiz: int, s: Settings,
                              w: Window, clock: Clock, content: Content) returns (q: QuizEntry, ghost total: int)
    requires db.Valid() && w.Wide()
    modifies db`rows, db`meta, db`nextId, db`attempts, db`quizHistory, rng`cursor
    ensures db.Valid()
    ensures Grew(old(db.Snapshot()), db.Snapshot(), q.activityIds, student)
    ensures (q != UnrecordedQuiz) == db.accepts(old(db.attempts))
    ensures QuizEntryOk(q, quiz, db.rows, student, w, s.quizPassRate, db.AlwaysAccepts())
    ensures q != UnrecordedQuiz ==> db.rows[q.activityId].courseId == Some(course) && 5 <= total <= 10 && q.score <= total
    ensures forall j :: |old(db.meta)| <= j < |db.meta| ==> QuizMetaOk(db.meta[j], q, total)
    ensures q == UnrecordedQuiz ==> db.meta == old(db.meta) && db.quizHistory == old(db.quizHistory)
    ensures q != UnrecordedQuiz ==>
              db.quizHistory == old(db.quizHistory)[student := StoredHistory(old(db.quizHistory), student) +
                [Attempt(quiz, course, q.percentage, q.pass == 1, clock.time, ProQuizId(content, quiz), q.started, q.completed)]]
    ensures q != UnrecordedQuiz ==> db.meta == old(db.meta) + Accepted(QuizMeta(q, total), db.accepts, old(db.attempts) + 1)
    ensures UserMetaGrew(old(db.Mark()), db.Mark(), {student})
  {
    ghost var m0 := db.Mark();
    var started, completed, percentage, passed, questions, score := DrawQuizOutcome(rng, w, s.quizPassRate);
    total := questions;
    q := WriteQuizRows(db, student, course, quiz, started, completed, score, percentage, passed, questions);
    ghost var m1 := db.Mark();
    UserMetaSame(m0, m1, {student});
    if q != UnrecordedQuiz {
      UpdateQuizStatistics(db, student, course, quiz, percentage, passed, started, completed, clock.time, ProQuizId(content, quiz));
      MetaGrewStep(m0, m1, db.Mark(), student);
    }
    assert old(db.Mark()) == m0;
  }

  // ---------------------------------------------------------------------------
  // Adding one entry keeps the student's activity recorded

  lemma AddQuizEntry(act: StudentActivity, rows: map<int, ActivityRow>, rows2: map<int, ActivityRow>, user: int, w: Window, s: Settings,
                     full: bool, quiz: int, q: QuizEntry)
    requires Recorded(act, rows, user, w, s, full)
    requires forall k :: k in rows ==> k in rows2 && rows2[k] == rows[k]
    requires QuizEntryOk(q, quiz, rows2, user, w, s.quizPassRate, full)
    ensures Recorded(act.(quizzes := act.quizzes[quiz := q], activityIds := act.activityIds + q.activityIds), rows2, user, w, s, full)
  {
  }

  lemma AddLessonEntry(act: StudentActivity, rows: map<int, ActivityRow>, rows2: map<int, ActivityRow>, user: int, w: Window, s: Settings,
                       full: bool, lesson: int, e: NodeEntry)
    requires Recorded(act, rows, user, w, s, full)
    requires forall k :: k in rows ==> k in rows2 && rows2[k] == rows[k]
    requires StepEntryOk(e, lesson, rows2, user, w, s.completionRate, full)
    ensures Recorded(act.(lessons := act.lessons[lesson := e], activityIds := act.activityIds + e.activityIds), rows2, user, w, s, full)
  {
  }

  lemma AddTopicEntry(act: StudentActivity, rows: map<int, ActivityRow>, rows2: map<int, ActivityRow>, user: int, w: Window, s: Settings,
                      full: bool, topic: int, e: NodeEntry)
    requires Recorded(act, rows, user, w, s, full)
    requires forall k :: k in rows ==> k in rows2 && rows2[k] == rows[k]
    requires StepEntryOk(e, topic, rows2, user, w, s.completionRate, full)
    ensures Recorded(act.(topics := act.topics[topic := e], activityIds := act.activityIds + e.activityIds), rows2, user, w, s, full)
  {
  }

  lemma AddCourseEntry(act: StudentActivity, rows: map<int, ActivityRow>, rows2: map<int, ActivityRow>, user: int, w: Window, s: Settings,
                       full: bool, course: int, e: NodeEntry)
    requires Recorded(act, rows, user, w, s, full)
    requires forall k :: k in rows ==> k in rows2 && rows2[k] == rows[k]
    requires CourseEntryOk(e, course, rows2, user, w, s.completionRate, full)
    ensures Recorded(act.(courses := act.courses[course := e], activityIds := act.activityIds + e.activityIds), rows2, user, w, s, full)
  {
  }

  // ---------------------------------------------------------------------------
  // What the traversal covers

  /** Every key of `a0` is still a key of `a`. */
  ghost predicate KeysKept(a0: StudentActivity, a: StudentActivity)
  {
    && a0.courses.Keys <= a.courses.Keys
    && a0.lessons.Keys <= a.lessons.Keys
    && a0.topics.Keys <= a.topics.Keys
    && a0.quizzes.Keys <= a.quizzes.Keys
  }

  /** Every quiz of a lesson or topic has an entry. */
  ghost predicate StepCovered(content: Content, step: int, act: StudentActivity)
  {
    forall q :: q in StepQuizzes(content, step) ==> q in act.quizzes
  }

  /** The first `n` topics of the list, and each one's quizzes, have entries. */
  ghost predicate TopicsCovered(content: Content, topics: seq<int>, n: int, act: StudentActivity)
  {
    && 0 <= n <= |topics|
    && forall j :: 0 <= j < n ==> topics[j] in act.topics && StepCovered(content, topics[j], act)
  }

  /** A lesson, its quizzes, every topic of its topic list and their quizzes
      have entries. */
  ghost predicate LessonCovered(content: Content, course: int, lesson: int, act: StudentActivity)
  {
    && lesson in act.lessons
    && StepCovered(content, lesson, act)
    && (lesson, course) in content.topics
    && TopicsCovered(content, content.topics[(lesson, course)], |content.topics[(lesson, course)]|, act)
  }

  /** The first `n` lessons of the list are covered as above. */
  ghost predicate LessonsCovered(content: Content, course: int, lessons: seq<int>, n: int, act: StudentActivity)
  {
    && 0 <= n <= |lessons|
    && forall j :: 0 <= j < n ==> LessonCovered(content, course, lessons[j], act)
  }

  /** The student's whole content of one course has entries: every lesson of
      the lesson list with everything under it, then, when the list is not
      empty, every course-level quiz. */
  ghost predicate ContentCovered(content: Content, course: int, student: int, act: StudentActivity)
  {
    && (course, student) in content.lessons
    && LessonsCovered(content, course, content.lessons[(course, student)], |content.lessons[(course, student)]|, act)
    && (content.lessons[(course, student)] != [] ==> forall q :: q in CourseQuizzes(content, course) ==> q in act.quizzes)
  }

  /** The first `n` courses of the list have an entry and their content is covered. */
  ghost predicate CoursesCovered(content: Content, courses: seq<int>, n: int, student: int, act: StudentActivity)
  {
    && 0 <= n <= |courses|
    && forall j :: 0 <= j < n ==> courses[j] in act.courses && ContentCovered(content, courses[j], student, act)
  }

  lemma TopicsCoveredKept(content: Content, topics: seq<int>, n: int, a0: StudentActivity, a: StudentActivity)
    requires KeysKept(a0, a) && TopicsCovered(content, topics, n, a0)
    ensures TopicsCovered(content, topics, n, a)
  {
  }

  lemma LessonsCoveredKept(content: Content, course: int, lessons: seq<int>, n: int, a0: StudentActivity, a: StudentActivity)
    requires KeysKept(a0, a) && LessonsCovered(content, course, lessons, n, a0)
    ensures LessonsCovered(content, course, lessons, n, a)
  {
    forall j | 0 <= j < n
      ensures LessonCovered(content, course, lessons[j], a)
    {
      var topics := content.topics[(lessons[j], course)];
      TopicsCoveredKept(content, topics, |topics|, a0, a);
    }
  }

  lemma TopicsCoveredNext(content: Content, topics: seq<int>, n: int, a0: StudentActivity, a: StudentActivity)
    requires KeysKept(a0, a) && TopicsCovered(content, topics, n, a0) && n < |topics|
    requires topics[n] in a.topics && StepCovered(content, topics[n], a)
    ensures TopicsCovered(content, topics, n + 1, a)
  {
    TopicsCoveredKept(content, topics, n, a0, a);
  }

  lemma LessonsCoveredNext(content: Content, course: int, lessons: seq<int>, n: int, a0: StudentActivity, a: StudentActivity)
    requires KeysKept(a0, a) && LessonsCovered(content, course, lessons, n, a0) && n < |lessons|
    requires LessonCovered(content, course, lessons[n], a)
    ensures LessonsCovered(content, course, lessons, n + 1, a)
  {
    LessonsCoveredKept(content, course, lessons, n, a0, a);
  }

  /** Every lesson of a covered list had its topic query return. */
  lemma LessonsCoveredTopics(content: Content, course: int, lessons: seq<int>, act: StudentActivity)
    requires LessonsCovered(content, course, lessons, |lessons|, act)
    ensures forall l :: l in lessons ==> (l, course) in content.topics
  {
    forall l | l in lessons
      ensures (l, course) in content.topics
    {
      var j :| 0 <= j < |lessons| && lessons[j] == l;
      assert LessonCovered(content, course, lessons[j], act);
    }
  }

  lemma ContentCoveredKept(content: Content, course: int, student: int, a0: StudentActivity, a: StudentActivity)
    requires KeysKept(a0, a) && ContentCovered(content, course, student, a0)
    ensures ContentCovered(content, course, student, a)
  {
    var lessons := content.lessons[(course, student)];
    LessonsCoveredKept(content, course, lessons, |lessons|, a0, a);
  }

  lemma CoursesCoveredKept(content: Content, courses: seq<int>, n: int, student: int, a0: StudentActivity, a: StudentActivity)
    requires KeysKept(a0, a) && CoursesCovered(content, courses, n, student, a0)
    ensures CoursesCovered(content, courses, n, student, a)
  {
    forall j | 0 <= j < n
      ensures courses[j] in a.courses && ContentCovered(content, courses[j], student, a)
    {
      ContentCoveredKept(content, courses[j], student, a0, a);
    }
  }

  lemma CoursesCoveredNext(content: Content, courses: seq<int>, n: int, student: int, a0: StudentActivity, a: StudentActivity)
    requires KeysKept(a0, a) && CoursesCovered(content, courses, n, student, a0) && n < |courses|
    requires courses[n] in a.courses && ContentCovered(content, courses[n], student, a)
    ensures CoursesCovered(content, courses, n + 1, student, a)
  {
    CoursesCoveredKept(content, courses, n, student, a0, a);
  }

  /** A student whose every course is covered had every content query return. */
  lemma CoursesCoveredReach(content: Content, courses: seq<int>, student: int, act: StudentActivity)
    requires CoursesCovered(content, courses, |courses|, student, act)
    ensures ReachableAll(content, courses, student)
    ensures forall c :: c in courses ==> c in act.courses
  {
    forall c | c in courses
      ensures Reachable(content, c, student) && c in act.courses
    {
      var j :| 0 <= j < |courses| && courses[j] == c;
      assert ContentCovered(content, courses[j], student, act);
      LessonsCoveredTopics(content, c, content.lessons[(c, student)], act);
    }
  }

  // ---------------------------------------------------------------------------
  // The traversal

  /** One quiz: generated, its entry stored under the quiz id, its ids appended. */
  method VisitQuiz(db: Database, rng: RandomSource, student: int, course: int, step: int, quiz: int,
                   s: Settings, w: Window, clock: Clock, content: Content, act0: StudentActivity) returns (act: StudentActivity)
    requires db.Valid() && w.Wide() && Recorded(act0, db.rows, student, w, s, db.AlwaysAccepts())
    modifies db`rows, db`meta, db`nextId, db`attempts, db`quizHistory, rng`cursor
    ensures db.Valid()
    ensures Progressed(act0, act, old(db.Snapshot()), db.Snapshot(), student)
    ensures UserMetaGrew(old(db.Mark()), db.Mark(), {student})
    ensures Recorded(act, db.rows, student, w, s, db.AlwaysAccepts())
    ensures act.courses == act0.courses && act.lessons == act0.lessons && act.topics == act0.topics
    ensures quiz in act.quizzes && act.quizzes == act0.quizzes[quiz := act.quizzes[quiz]]
  {
    ghost var t0 := db.Snapshot();
    var q;
    ghost var total;
    q, total := GenerateQuizActivity(db, rng, student, course, step, quiz, s, w, clock, content);
    act := act0.(quizzes := act0.quizzes[quiz := q], activityIds := act0.activityIds + q.activityIds);
    GrewNothing(t0, student);
    ProgressedStep(act0, act0, t0, t0, db.Snapshot(), q.activityIds, act, student);
    AddQuizEntry(act0, t0.rows, db.rows, student, w, s, db.AlwaysAccepts(), quiz, q);
  }

  /** The quiz loop of a lesson or topic after `n` quizzes: only quiz entries
      changed, none was lost, and each of the first `n` quizzes has one. */
  ghost predicate QuizzesSoFar(act0: StudentActivity, act: StudentActivity, quizzes: seq<int>, n: int)
  {
    && 0 <= n <= |quizzes|
    && act.courses == act0.courses && act.lessons == act0.lessons && act.topics == act0.topics
    && act0.quizzes.Keys <= act.quizzes.Keys
    && (forall j :: 0 <= j < n ==> quizzes[j] in act.quizzes)
    && (forall q :: q in act.quizzes ==> q in act0.quizzes || q in quizzes)
  }

  lemma QuizzesNext(act0: StudentActivity, a1: StudentActivity, act: StudentActivity, quizzes: seq<int>, n: int)
    requires QuizzesSoFar(act0, a1, quizzes, n) && n < |quizzes|
    requires act.courses == a1.courses && act.lessons == a1.lessons && act.topics == a1.topics
    requires quizzes[n] in act.quizzes && act.quizzes == a1.quizzes[quizzes[n] := act.quizzes[quizzes[n]]]
    ensures QuizzesSoFar(act0, act, quizzes, n + 1)
  {
  }

  /** The quizzes of a lesson or topic, each generated in order; a quiz seen
      before is generated again and its entry replaced, while the ids of both
      visits stay in the list. */
  method GenerateQuizzes(db: Database, rng: RandomSource, student: int, course: int, step: int, quizzes: seq<int>,
                         s: Settings, w: Window, clock: Clock, content: Content, act0: StudentActivity) returns (act: StudentActivity)
    requires db.Valid() && w.Wide() && Recorded(act0, db.rows, student, w, s, db.AlwaysAccepts())
    modifies db`rows, db`meta, db`nextId, db`attempts, db`quizHistory, rng`cursor
    ensures db.Valid()
    ensures Progressed(act0, act, old(db.Snapshot()), db.Snapshot(), student)
    ensures UserMetaGrew(old(db.Mark()), db.Mark(), {student})
    ensures Recorded(act, db.rows, student, w, s, db.AlwaysAccepts())
    ensures act.courses == act0.courses && act.lessons == act0.lessons && act.topics == act0.topics
    ensures act.quizzes.Keys == act0.quizzes.Keys + set q | q in quizzes
  {
    act := act0;
    ghost var t0 := db.Snapshot();
    ghost var m0 := db.Mark();
    ProgressedNothing(act0, t0, student);
    UserMetaSame(m0, m0, {student});
    for i := 0 to |quizzes|
      invariant db.Valid()
      invariant Progressed(act0, act, t0, db.Snapshot(), student)
      invariant UserMetaGrew(m0, db.Mark(), {student})
      invariant Recorded(act, db.rows, student, w, s, db.AlwaysAccepts())
      invariant QuizzesSoFar(act0, act, quizzes, i)
    {
      ghost var t1 := db.Snapshot();
      ghost var m1 := db.Mark();
      ghost var a1 := act;
      act := VisitQuiz(db, rng, student, course, step, quizzes[i], s, w, clock, content, act);
      ProgressedCompose(act0, a1, act, t0, t1, db.Snapshot(), student);
      MetaGrewStep(m0, m1, db.Mark(), student);
      QuizzesNext(act0, a1, act, quizzes, i);
    }
    KeysCovered(act.quizzes.Keys, act0.quizzes.Keys, quizzes);
  }

  /** One iteration of the course-quiz loop: the quiz is generated only when
      the student has no entry for it yet. */
  method VisitCourseQuiz(db: Database, rng: RandomSource, student: int, course: int, quiz: int,
                         s: Settings, w: Window, clock: Clock, content: Content, act0: StudentActivity) returns (act: StudentActivity)
    requires db.Valid() && w.Wide() && Recorded(act0, db.rows, student, w, s, db.AlwaysAccepts())
    modifies db`rows, db`meta, db`nextId, db`attempts, db`quizHistory, rng`cursor
    ensures db.Valid()
    ensures Progressed(act0, act, old(db.Snapshot()), db.Snapshot(), student)
    ensures UserMetaGrew(old(db.Mark()), db.Mark(), {student})
    ensures Recorded(act, db.rows, student, w, s, db.AlwaysAccepts())
    ensures quiz in act.quizzes
    ensures quiz in act0.quizzes ==> act == act0
    ensures quiz !in act0.quizzes ==> act == act0.(quizzes := act0.quizzes[quiz := act.quizzes[quiz]], activityIds := act.activityIds)
  {
    act := act0;
    if quiz in act0.quizzes {
      ProgressedNothing(act0, db.Snapshot(), student);
      UserMetaSame(db.Mark(), db.Mark(), {student});
    } else {
      act := VisitQuiz(db, rng, student, course, 0, quiz, s, w, clock, content, act0);
    }
  }

  /** The course-quiz loop after `n` quizzes: only quiz entries were added,
      the entries of `act0` are untouched, and each of the first `n` quizzes
      has an entry; when all of them were already there nothing changed. */
  ghost predicate CourseQuizzesSoFar(act0: StudentActivity, act: StudentActivity, quizzes: seq<int>, n: int)
  {
    && 0 <= n <= |quizzes|
    && act.courses == act0.courses && act.lessons == act0.lessons && act.topics == act0.topics
    && (forall j :: 0 <= j < n ==> quizzes[j] in act.quizzes)
    && (forall q :: q in act.quizzes ==> q in act0.quizzes || q in quizzes)
    && act0.quizzes.Keys <= act.quizzes.Keys
    && (forall q :: q in act0.quizzes ==> act.quizzes[q] == act0.quizzes[q])
    && ((forall j :: 0 <= j < n ==> quizzes[j] in act0.quizzes) ==> act == act0)
  }

  lemma CourseQuizzesNext(act0: StudentActivity, a1: StudentActivity, act: StudentActivity, quizzes: seq<int>, n: int)
    requires CourseQuizzesSoFar(act0, a1, quizzes, n) && n < |quizzes|
    requires quizzes[n] in act.quizzes
    requires quizzes[n] in a1.quizzes ==> act == a1
    requires quizzes[n] !in a1.quizzes ==>
               act == a1.(quizzes := a1.quizzes[quizzes[n] := act.quizzes[quizzes[n]]], activityIds := act.activityIds)
    ensures CourseQuizzesSoFar(act0, act, quizzes, n + 1)
  {
  }

  /** The course-level quizzes: each one the student has no entry for yet is
      generated; one already visited through a lesson or topic, in this course
      or an earlier one, is skipped. */
  method GenerateCourseQuizzes(db: Database, rng: RandomSource, student: int, course: int, quizzes: seq<int>,
                               s: Settings, w: Window, clock: Clock, content: Content, act0: StudentActivity) returns (act: StudentActivity)
    requires db.Valid() && w.Wide() && Recorded(act0, db.rows, student, w, s, db.AlwaysAccepts())
    modifies db`rows, db`meta, db`nextId, db`attempts, db`quizHistory, rng`cursor
    ensures db.Valid()
    ensures Progressed(act0, act, old(db.Snapshot()), db.Snapshot(), student)
    ensures UserMetaGrew(old(db.Mark()), db.Mark(), {student})
    ensures Recorded(act, db.rows, student, w, s, db.AlwaysAccepts())
    ensures act.courses == act0.courses && act.lessons == act0.lessons && act.topics == act0.topics
    ensures act.quizzes.Keys == act0.quizzes.Keys + set q | q in quizzes
    ensures forall q :: q in act0.quizzes ==> act.quizzes[q] == act0.quizzes[q]
    ensures (forall j :: 0 <= j < |quizzes| ==> quizzes[j] in act0.quizzes) ==> act == act0
  {
    act := act0;
    ghost var t0 := db.Snapshot();
    ghost var m0 := db.Mark();
    ProgressedNothing(act0, t0, student);
    UserMetaSame(m0, m0, {student});
    for i := 0 to |quizzes|
      invariant db.Valid()
      invariant Progressed(act0, act, t0, db.Snapshot(), student)
      invariant UserMetaGrew(m0, db.Mark(), {student})
      invariant Recorded(act, db.rows, student, w, s, db.AlwaysAccepts())
      invariant CourseQuizzesSoFar(act0, act, quizzes, i)
    {
      ghost var t1 := db.Snapshot();
      ghost var m1 := db.Mark();
      ghost var a1 := act;
      act := VisitCourseQuiz(db, rng, student, course, quizzes[i], s, w, clock, content, act);
      ProgressedCompose(act0, a1, act, t0, t1, db.Snapshot(), student);
      MetaGrewStep(m0, m1, db.Mark(), student);
      CourseQuizzesNext(act0, a1, act, quizzes, i);
    }
    KeysCovered(act.quizzes.Keys, act0.quizzes.Keys, quizzes);
  }

  /** Whether every content query for this course and student returns: the
      lesson list, and the topic list of each of its lessons. */
  predicate Reachable(content: Content, course: int, student: int)
  {
    && (course, student) in content.lessons
    && forall l :: l in content.lessons[(course, student)] ==> (l, course) in content.topics
  }

  /** Whether every content query for every course of the list returns for this student. */
  predicate ReachableAll(content: Content, courses: seq<int>, student: int)
  {
    forall c :: c in courses ==> Reachable(content, c, student)
  }

  /** A lesson's own node, added to the student's activity. */
  method RecordLesson(db: Database, rng: RandomSource, student: int, course: int, lesson: int,
                      s: Settings, w: Window, clock: Clock, act0: StudentActivity) returns (act: StudentActivity)
    requires db.Valid() && w.Wide() && Recorded(act0, db.rows, student, w, s, db.AlwaysAccepts())
    modifies db`rows, db`meta, db`nextId, db`attempts, db`lessonCompleted, db`legacy, rng`cursor
    ensures db.Valid()
    ensures Progressed(act0, act, old(db.Snapshot()), db.Snapshot(), student)
    ensures UserMetaGrew(old(db.Mark()), db.Mark(), {student})
    ensures Recorded(act, db.rows, student, w, s, db.AlwaysAccepts())
    ensures lesson in act.lessons
    ensures act == act0.(lessons := act0.lessons[lesson := act.lessons[lesson]], activityIds := act.activityIds)
  {
    ghost var t0 := db.Snapshot();
    var e := GenerateLessonActivity(db, rng, student, course, lesson, s, w, clock);
    act := act0.(lessons := act0.lessons[lesson := e], activityIds := act0.activityIds + e.activityIds);
    GrewNothing(t0, student);
    ProgressedStep(act0, act0, t0, t0, db.Snapshot(), e.activityIds, act, student);
    AddLessonEntry(act0, t0.rows, db.rows, student, w, s, db.AlwaysAccepts(), lesson, e);
  }

  /** A topic's own node, added to the student's activity. */
  method RecordTopic(db: Database, rng: RandomSource, student: int, course: int, lesson: int, topic: int,
                     s: Settings, w: Window, clock: Clock, act0: StudentActivity) returns (act: StudentActivity)
    requires db.Valid() && w.Wide() && Recorded(act0, db.rows, student, w, s, db.AlwaysAccepts())
    modifies db`rows, db`meta, db`nextId, db`attempts, db`lessonCompleted, db`legacy, rng`cursor
    ensures db.Valid()
    ensures Progressed(act0, act, old(db.Snapshot()), db.Snapshot(), student)
    ensures UserMetaGrew(old(db.Mark()), db.Mark(), {student})
    ensures Recorded(act, db.rows, student, w, s, db.AlwaysAccepts())
    ensures topic in act.topics
    ensures act == act0.(topics := act0.topics[topic := act.topics[topic]], activityIds := act.activityIds)
  {
    ghost var t0 := db.Snapshot();
    var e := GenerateTopicActivity(db, rng, student, course, lesson, topic, s, w, clock);
    act := act0.(topics := act0.topics[topic := e], activityIds := act0.activityIds + e.activityIds);
    GrewNothing(t0, student);
    ProgressedStep(act0, act0, t0, t0, db.Snapshot(), e.activityIds, act, student);
    AddTopicEntry(act0, t0.rows, db.rows, student, w, s, db.AlwaysAccepts(), topic, e);
  }

  /** One iteration of the topic loop: the topic, then its quizzes. */
  method VisitTopic(db: Database, rng: RandomSource, student: int, course: int, lesson: int, topic: int,
                    s: Settings, w: Window, clock: Clock, content: Content, act0: StudentActivity) returns (act: StudentActivity)
    requires db.Valid() && w.Wide() && Recorded(act0, db.rows, student, w, s, db.AlwaysAccepts())
    modifies db`rows, db`meta, db`nextId, db`attempts, db`lessonCompleted, db`legacy, db`quizHistory, rng`cursor
    ensures db.Valid()
    ensures Progressed(act0, act, old(db.Snapshot()), db.Snapshot(), student)
    ensures UserMetaGrew(old(db.Mark()), db.Mark(), {student})
    ensures Recorded(act, db.rows, student, w, s, db.AlwaysAccepts())
    ensures act.courses == act0.courses && act.lessons == act0.lessons
    ensures act.topics.Keys == act0.topics.Keys + {topic}
    ensures act.quizzes.Keys == act0.quizzes.Keys + set q | q in StepQuizzes(content, topic)
    ensures topic in act.topics && StepCovered(content, topic, act)
  {
    ghost var t0 := db.Snapshot();
    ghost var m0 := db.Mark();
    act := RecordTopic(db, rng, student, course, lesson, topic, s, w, clock, act0);
    ghost var t1 := db.Snapshot();
    ghost var m1 := db.Mark();
    ghost var a1 := act;
    act := GenerateQuizzes(db, rng, student, course, topic, StepQuizzes(content, topic), s, w, clock, content, act);
    ProgressedCompose(act0, a1, act, t0, t1, db.Snapshot(), student);
    MetaGrewStep(m0, m1, db.Mark(), student);
  }

  /** The lesson itself, then its quizzes. */
  method VisitLessonNode(db: Database, rng: RandomSource, student: int, course: int, lesson: int,
                         s: Settings, w: Window, clock: Clock, content: Content, act0: StudentActivity) returns (act: StudentActivity)
    requires db.Valid() && w.Wide() && Recorded(act0, db.rows, student, w, s, db.AlwaysAccepts())
    modifies db`rows, db`meta, db`nextId, db`attempts, db`lessonCompleted, db`legacy, db`quizHistory, rng`cursor
    ensures db.Valid()
    ensures Progressed(act0, act, old(db.Snapshot()), db.Snapshot(), student)
    ensures UserMetaGrew(old(db.Mark()), db.Mark(), {student})
    ensures Recorded(act, db.rows, student, w, s, db.AlwaysAccepts())
    ensures act.courses == act0.courses && act.topics == act0.topics
    ensures act.lessons.Keys == act0.lessons.Keys + {lesson}
    ensures act.quizzes.Keys == act0.quizzes.Keys + set q | q in StepQuizzes(content, lesson)
    ensures lesson in act.lessons && StepCovered(content, lesson, act)
  {
    ghost var t0 := db.Snapshot();
    ghost var m0 := db.Mark();
    act := RecordLesson(db, rng, student, course, lesson, s, w, clock, act0);
    ghost var t1 := db.Snapshot();
    ghost var m1 := db.Mark();
    ghost var a1 := act;
    act := GenerateQuizzes(db, rng, student, course, lesson, StepQuizzes(content, lesson), s, w, clock, content, act);
    ProgressedCompose(act0, a1, act, t0, t1, db.Snapshot(), student);
    MetaGrewStep(m0, m1, db.Mark(), student);
  }

  /** The topic loop of one lesson: each topic followed by its quizzes. */
  method VisitTopics(db: Database, rng: RandomSource, student: int, course: int, lesson: int, topics: seq<int>,
                     s: Settings, w: Window, clock: Clock, content: Content, act0: StudentActivity) returns (act: StudentActivity)
    requires db.Valid() && w.Wide() && Recorded(act0, db.rows, student, w, s, db.AlwaysAccepts())
    modifies db`rows, db`meta, db`nextId, db`attempts, db`lessonCompleted, db`legacy, db`quizHistory, rng`cursor
    ensures db.Valid()
    ensures Progressed(act0, act, old(db.Snapshot()), db.Snapshot(), student)
    ensures UserMetaGrew(old(db.Mark()), db.Mark(), {student})
    ensures Recorded(act, db.rows, student, w, s, db.AlwaysAccepts())
    ensures act.courses == act0.courses && act.lessons == act0.lessons
    ensures KeysKept(act0, act)
    ensures TopicsCovered(content, topics, |topics|, act)
  {
    act := act0;
    ghost var t0 := db.Snapshot();
    ghost var m0 := db.Mark();
    ProgressedNothing(act0, t0, student);
    UserMetaSame(m0, m0, {student});
    for j := 0 to |topics|
      invariant db.Valid()
      invariant Progressed(act0, act, t0, db.Snapshot(), student)
      invariant UserMetaGrew(m0, db.Mark(), {student})
      invariant Recorded(act, db.rows, student, w, s, db.AlwaysAccepts())
      invariant act.courses == act0.courses && act.lessons == act0.lessons
      invariant KeysKept(act0, act)
      invariant TopicsCovered(content, topics, j, act)
    {
      ghost var t1 := db.Snapshot();
      ghost var m1 := db.Mark();
      ghost var a1 := act;
      act := VisitTopic(db, rng, student, course, lesson, topics[j], s, w, clock, content, act);
      ProgressedCompose(act0, a1, act, t0, t1, db.Snapshot(), student);
      MetaGrewStep(m0, m1, db.Mark(), student);
      TopicsCoveredNext(content, topics, j, a1, act);
    }
  }

  /** One iteration of the lesson loop: the lesson, its quizzes, then each of
      its topics followed by the topic's quizzes. `ok` is false when the topic
      query raised. */
  method VisitLesson(db: Database, rng: RandomSource, student: int, course: int, lesson: int,
                     s: Settings, w: Window, clock: Clock, content: Content, act0: StudentActivity) returns (act: StudentActivity, ok: bool)
    requires db.Valid() && w.Wide() && Recorded(act0, db.rows, student, w, s, db.AlwaysAccepts())
    modifies db`rows, db`meta, db`nextId, db`attempts, db`lessonCompleted, db`legacy, db`quizHistory, rng`cursor
    ensures db.Valid()
    ensures Progressed(act0, act, old(db.Snapshot()), db.Snapshot(), student)
    ensures UserMetaGrew(old(db.Mark()), db.Mark(), {student})
    ensures Recorded(act, db.rows, student, w, s, db.AlwaysAccepts())
    ensures act.courses == act0.courses
    ensures ok <==> (lesson, course) in content.topics
    ensures act0.lessons.Keys + {lesson} == act.lessons.Keys
    ensures KeysKept(act0, act)
    ensures ok ==> LessonCovered(content, course, lesson, act)
  {
    ghost var t0 := db.Snapshot();
    ghost var m0 := db.Mark();
    act := VisitLessonNode(db, rng, student, course, lesson, s, w, clock, content, act0);
    if (lesson, course) !in content.topics {
      return act, false;
    }
    ghost var t1 := db.Snapshot();
    ghost var m1 := db.Mark();
    ghost var a1 := act;
    act := VisitTopics(db, rng, student, course, lesson, content.topics[(lesson, course)], s, w, clock, content, act);
    ProgressedCompose(act0, a1, act, t0, t1, db.Snapshot(), student);
    MetaGrewStep(m0, m1, db.Mark(), student);
    ok := true;
  }

  /** The lesson loop of one course; stops at the first lesson whose topic
      query raised. */
  method VisitLessons(db: Database, rng: RandomSource, student: int, course: int, lessons: seq<int>,
                      s: Settings, w: Window, clock: Clock, content: Content, act0: StudentActivity) returns (act: StudentActivity, ok: bool)
    requires db.Valid() && w.Wide() && Recorded(act0, db.rows, student, w, s, db.AlwaysAccepts())
    modifies db`rows, db`meta, db`nextId, db`attempts, db`lessonCompleted, db`legacy, db`quizHistory, rng`cursor
    ensures db.Valid()
    ensures Progressed(act0, act, old(db.Snapshot()), db.Snapshot(), student)
    ensures UserMetaGrew(old(db.Mark()), db.Mark(), {student})
    ensures Recorded(act, db.rows, student, w, s, db.AlwaysAccepts())
    ensures act.courses == act0.courses
    ensures KeysKept(act0, act)
    ensures ok <==> forall l :: l in lessons ==> (l, course) in content.topics
    ensures ok ==> LessonsCovered(content, course, lessons, |lessons|, act)
  {
    act := act0;
    ghost var t0 := db.Snapshot();
    ghost var m0 := db.Mark();
    ProgressedNothing(act0, t0, student);
    UserMetaSame(m0, m0, {student});
    for i := 0 to |lessons|
      invariant db.Valid()
      invariant Progressed(act0, act, t0, db.Snapshot(), student)
      invariant UserMetaGrew(m0, db.Mark(), {student})
      invariant Recorded(act, db.rows, student, w, s, db.AlwaysAccepts())
      invariant act.courses == act0.courses
      invariant KeysKept(act0, act)
      invariant LessonsCovered(content, course, lessons, i, act)
    {
      ghost var t1 := db.Snapshot();
      ghost var m1 := db.Mark();
      ghost var a1 := act;
      var visited;
      act, visited := VisitLesson(db, rng, student, course, lessons[i], s, w, clock, content, act);
      ProgressedCompose(act0, a1, act, t0, t1, db.Snapshot(), student);
      MetaGrewStep(m0, m1, db.Mark(), student);
      if !visited {
        return act, false;
      }
      LessonsCoveredNext(content, course, lessons, i, a1, act);
    }
    ok := true;
    LessonsCoveredTopics(content, course, lessons, act);
  }

  /** `generate_course_content_activity`. `ok` is false when a content query
      raised. A course whose lesson list is empty returns at once, so its
      course-level quizzes are not generated either. */
  method GenerateCourseContentActivity(db: Database, rng: RandomSource, student: int, course: int,
                                       s: Settings, w: Window, clock: Clock, content: Content, act0: StudentActivity)
    returns (act: StudentActivity, ok: bool)
    requires db.Valid() && w.Wide() && Recorded(act0, db.rows, student, w, s, db.AlwaysAccepts())
    modifies db`rows, db`meta, db`nextId, db`attempts, db`lessonCompleted, db`legacy, db`quizHistory, rng`cursor
    ensures db.Valid()
    ensures Progressed(act0, act, old(db.Snapshot()), db.Snapshot(), student)
    ensures UserMetaGrew(old(db.Mark()), db.Mark(), {student})
    ensures Recorded(act, db.rows, student, w, s, db.AlwaysAccepts())
    ensures act.courses == act0.courses
    ensures KeysKept(act0, act)
    ensures ok <==> Reachable(content, course, student)
    ensures ok && content.lessons[(course, student)] == [] ==> act == act0
    ensures ok ==> ContentCovered(content, course, student, act)
  {
    ghost var t0 := db.Snapshot();
    ghost var m0 := db.Mark();
    ProgressedNothing(act0, t0, student);
    UserMetaSame(m0, m0, {student});
    act := act0;
    if (course, student) !in content.lessons {
      return act, false;
    }
    var lessons := content.lessons[(course, student)];
    if |lessons| == 0 {
      return act, true;
    }
    act, ok := VisitLessons(db, rng, student, course, lessons, s, w, clock, content, act0);
    if !ok {
      return;
    }
    ghost var t1 := db.Snapshot();
    ghost var m1 := db.Mark();
    ghost var a1 := act;
    act := GenerateCourseQuizzes(db, rng, student, course, CourseQuizzes(content, course), s, w, clock, content, act);
    ProgressedCompose(act0, a1, act, t0, t1, db.Snapshot(), student);
    MetaGrewStep(m0, m1, db.Mark(), student);
    LessonsCoveredKept(content, course, lessons, |lessons|, a1, act);
  }

  /** A course's own node, added to the student's activity. */
  method RecordCourse(db: Database, rng: RandomSource, student: int, course: int,
                      s: Settings, w: Window, clock: Clock, content: Content, act0: StudentActivity) returns (act: StudentActivity)
    requires db.Valid() && w.Wide() && Recorded(act0, db.rows, student, w, s, db.AlwaysAccepts())
    modifies db`rows, db`meta, db`nextId, db`attempts, db`courseProgress, db`legacy, rng`cursor
    ensures db.Valid()
    ensures Progressed(act0, act, old(db.Snapshot()), db.Snapshot(), student)
    ensures UserMetaGrew(old(db.Mark()), db.Mark(), {student})
    ensures Recorded(act, db.rows, student, w, s, db.AlwaysAccepts())
    ensures course in act.courses
    ensures act == act0.(courses := act0.courses[course := act.courses[course]], activityIds := act.activityIds)
  {
    ghost var t0 := db.Snapshot();
    var e;
    ghost var steps;
    e, steps := GenerateCourseActivity(db, rng, student, course, s, w, clock, content);
    act := act0.(courses := act0.courses[course := e], activityIds := act0.activityIds + e.activityIds);
    GrewNothing(t0, student);
    ProgressedStep(act0, act0, t0, t0, db.Snapshot(), e.activityIds, act, student);
    AddCourseEntry(act0, t0.rows, db.rows, student, w, s, db.AlwaysAccepts(), course, e);
  }

  /** One iteration of the course loop: the course activity, then its content. */
  method VisitCourse(db: Database, rng: RandomSource, student: int, course: int,
                     s: Settings, w: Window, clock: Clock, content: Content, act0: StudentActivity)
    returns (act: StudentActivity, ok: bool)
    requires db.Valid() && w.Wide() && Recorded(act0, db.rows, student, w, s, db.AlwaysAccepts())
    modifies db`rows, db`meta, db`nextId, db`attempts, db`courseProgress, db`lessonCompleted, db`legacy, db`quizHistory, rng`cursor
    ensures db.Valid()
    ensures Progressed(act0, act, old(db.Snapshot()), db.Snapshot(), student)
    ensures UserMetaGrew(old(db.Mark()), db.Mark(), {student})
    ensures Recorded(act, db.rows, student, w, s, db.AlwaysAccepts())
    ensures act.courses.Keys == act0.courses.Keys + {course}
    ensures KeysKept(act0, act)
    ensures ok <==> Reachable(content, course, student)
    ensures ok ==> ContentCovered(content, course, student, act)
  {
    ghost var t0 := db.Snapshot();
    ghost var m0 := db.Mark();
    act := RecordCourse(db, rng, student, course, s, w, clock, content, act0);
    ghost var t1 := db.Snapshot();
    ghost var m1 := db.Mark();
    ghost var a1 := act;
    act, ok := GenerateCourseContentActivity(db, rng, student, course, s, w, clock, content, act);
    ProgressedCompose(act0, a1, act, t0, t1, db.Snapshot(), student);
    MetaGrewStep(m0, m1, db.Mark(), student);
  }

  /** `generate_student_activity`: every course in order, inside the window of
      the last `activity_days` days. `ok` is false when a content query raised. */
  method GenerateStudentActivity(db: Database, rng: RandomSource, student: int, s: Settings, clock: Clock, content: Content)
    returns (act: StudentActivity, ok: bool)
    requires db.Valid() && s.activityDays >= 1
    modifies db`rows, db`meta, db`nextId, db`attempts, db`courseProgress, db`lessonCompleted, db`legacy, db`quizHistory, rng`cursor
    ensures db.Valid()
    ensures Grew(old(db.Snapshot()), db.Snapshot(), act.activityIds, student)
    ensures UserMetaGrew(old(db.Mark()), db.Mark(), {student})
    ensures Recorded(act, db.rows, student, WindowOf(clock.now, s.activityDays), s, db.AlwaysAccepts())
    ensures ok <==> ReachableAll(content, s.courses, student)
    ensures ok ==> act.courses.Keys == set c | c in s.courses
    ensures ok ==> CoursesCovered(content, s.courses, |s.courses|, student, act)
  {
    var w := WindowOf(clock.now, s.activityDays);
    ghost var t0 := db.Snapshot();
    ghost var m0 := db.Mark();
    ProgressedNothing(NoActivity, t0, student);
    UserMetaSame(m0, m0, {student});
    act := NoActivity;
    ok := true;
    for i := 0 to |s.courses|
      invariant db.Valid()
      invariant Progressed(NoActivity, act, t0, db.Snapshot(), student)
      invariant UserMetaGrew(m0, db.Mark(), {student})
      invariant Recorded(act, db.rows, student, w, s, db.AlwaysAccepts())
      invariant forall c :: c in act.courses ==> c in s.courses
      invariant CoursesCovered(content, s.courses, i, student, act)
    {
      ghost var t1 := db.Snapshot();
      ghost var m1 := db.Mark();
      ghost var a1 := act;
      act, ok := VisitCourse(db, rng, student, s.courses[i], s, w, clock, content, act);
      ProgressedCompose(NoActivity, a1, act, t0, t1, db.Snapshot(), student);
      MetaGrewStep(m0, m1, db.Mark(), student);
      if !ok {
        assert act.activityIds[0..] == act.activityIds;
        return;
      }
      CoursesCoveredNext(content, s.courses, i, student, a1, act);
    }
    assert act.activityIds[0..] == act.activityIds;
    CoursesCoveredReach(content, s.courses, student, act);
    KeysCovered(act.courses.Keys, {}, s.courses);
  }

  /** A key set that grew from `keys0` by exactly the elements of `xs`. */
  lemma KeysCovered(keys: set<int>, keys0: set<int>, xs: seq<int>)
    requires keys0 <= keys
    requires forall j :: 0 <= j < |xs| ==> xs[j] in keys
    requires forall k :: k in keys ==> k in keys0 || k in xs
    ensures keys == keys0 + set x | x in xs
  {
    forall k | k in keys
      ensures k in keys0 + set x | x in xs
    {
    }
  }
}
