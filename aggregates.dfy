// The per-student aggregate user meta the generator maintains beside the raw
// activity rows: course progress, lesson completion and quiz history, plus the
// single-valued completion markers.

module Aggregates {
  import opened Wrappers
  import opened Records
  import opened Storage

  /** `get_user_meta($user, key, true)`, with an absent or empty value read as an empty array. */
  function StoredProgress(p: map<int, map<int, Progress>>, user: int): map<int, Progress>
  {
    if user in p then p[user] else map[]
  }

  function StoredSteps(p: map<int, map<int, map<int, int>>>, user: int): map<int, map<int, int>>
  {
    if user in p then p[user] else map[]
  }

  function StoredHistory(h: map<int, seq<QuizAttempt>>, user: int): seq<QuizAttempt>
  {
    if user in h then h[user] else []
  }

  function StoredLegacy(l: map<int, map<LegacyKey, int>>, user: int): map<LegacyKey, int>
  {
    if user in l then l[user] else map[]
  }

  /** `u`'s entry is the same in both maps, present in both or absent from both. */
  predicate SameEntry<V(==)>(a: map<int, V>, b: map<int, V>, u: int)
  {
    (u in a <==> u in b) && (u in a ==> a[u] == b[u])
  }

  /** No course entry was lost and no completed course was reset. */
  ghost predicate ProgressKept(p0: map<int, Progress>, p1: map<int, Progress>)
  {
    forall c :: c in p0 ==> c in p1 && (p0[c].completed == 1 ==> p1[c].completed == 1)
  }

  /** No course and no step of a course was lost. */
  ghost predicate StepsKept(p0: map<int, map<int, int>>, p1: map<int, map<int, int>>)
  {
    forall c :: c in p0 ==> c in p1 && p0[c].Keys <= p1[c].Keys
  }

  /** One user's meta only grew: the quiz history was appended to, course
      progress and lesson completion lost no key and no completion, and the
      single-valued markers lost no key. */
  ghost predicate UserGrew(m0: Savepoint, m1: Savepoint, u: int)
  {
    && StoredHistory(m0.quizHistory, u) <= StoredHistory(m1.quizHistory, u)
    && ProgressKept(StoredProgress(m0.courseProgress, u), StoredProgress(m1.courseProgress, u))
    && StepsKept(StoredSteps(m0.lessonCompleted, u), StoredSteps(m1.lessonCompleted, u))
    && StoredLegacy(m0.legacy, u).Keys <= StoredLegacy(m1.legacy, u).Keys
  }

  /** One user's four meta values are exactly as they were. */
  ghost predicate UserSame(m0: Savepoint, m1: Savepoint, u: int)
  {
    && SameEntry(m0.courseProgress, m1.courseProgress, u)
    && SameEntry(m0.lessonCompleted, m1.lessonCompleted, u)
    && SameEntry(m0.quizHistory, m1.quizHistory, u)
    && SameEntry(m0.legacy, m1.legacy, u)
  }

  /** From `m0` to `m1` the user meta of `users` only grew, and every other
      user's four meta values are exactly as they were. */
  ghost predicate UserMetaGrew(m0: Savepoint, m1: Savepoint, users: set<int>)
  {
    && (forall u {:trigger UserGrew(m0, m1, u)} :: u in users ==> UserGrew(m0, m1, u))
    && (forall u {:trigger UserSame(m0, m1, u)} :: u !in users ==> UserSame(m0, m1, u))
  }

  /** User meta left alone has grown for any set of users. */
  lemma UserMetaSame(m0: Savepoint, m1: Savepoint, users: set<int>)
    requires m1.courseProgress == m0.courseProgress && m1.lessonCompleted == m0.lessonCompleted
    requires m1.quizHistory == m0.quizHistory && m1.legacy == m0.legacy
    ensures UserMetaGrew(m0, m1, users)
  {
  }

  lemma UserGrewTrans(m0: Savepoint, m1: Savepoint, m2: Savepoint, u: int)
    requires UserGrew(m0, m1, u) && UserGrew(m1, m2, u)
    ensures UserGrew(m0, m2, u)
  {
  }

  lemma UserGrewThenSame(m0: Savepoint, m1: Savepoint, m2: Savepoint, u: int)
    requires UserGrew(m0, m1, u) && UserSame(m1, m2, u)
    ensures UserGrew(m0, m2, u)
  {
    assert StoredHistory(m2.quizHistory, u) == StoredHistory(m1.quizHistory, u);
    assert StoredProgress(m2.courseProgress, u) == StoredProgress(m1.courseProgress, u);
    assert StoredSteps(m2.lessonCompleted, u) == StoredSteps(m1.lessonCompleted, u);
    assert StoredLegacy(m2.legacy, u) == StoredLegacy(m1.legacy, u);
  }

  lemma UserSameThenGrew(m0: Savepoint, m1: Savepoint, m2: Savepoint, u: int)
    requires UserSame(m0, m1, u) && UserGrew(m1, m2, u)
    ensures UserGrew(m0, m2, u)
  {
    assert StoredHistory(m1.quizHistory, u) == StoredHistory(m0.quizHistory, u);
    assert StoredProgress(m1.courseProgress, u) == StoredProgress(m0.courseProgress, u);
    assert StoredSteps(m1.lessonCompleted, u) == StoredSteps(m0.lessonCompleted, u);
    assert StoredLegacy(m1.legacy, u) == StoredLegacy(m0.legacy, u);
  }

  lemma {:induction false} UserMetaGrewCompose(m0: Savepoint, m1: Savepoint, m2: Savepoint, a: set<int>, b: set<int>)
    requires UserMetaGrew(m0, m1, a) && UserMetaGrew(m1, m2, b)
    ensures UserMetaGrew(m0, m2, a + b)
  {
    forall u | u in a + b
      ensures UserGrew(m0, m2, u)
    {
      if u in a && u in b {
        UserGrewTrans(m0, m1, m2, u);
      } else if u in a {
        UserGrewThenSame(m0, m1, m2, u);
      } else {
        UserSameThenGrew(m0, m1, m2, u);
      }
    }
    forall u | u !in a + b
      ensures UserSame(m0, m2, u)
    {
      assert UserSame(m0, m1, u) && UserSame(m1, m2, u);
    }
  }

  /** A step that grows one member's meta keeps the growth of the whole set. */
  lemma UserMetaGrewWithin(m0: Savepoint, m1: Savepoint, m2: Savepoint, users: set<int>, u: int)
    requires UserMetaGrew(m0, m1, users) && UserMetaGrew(m1, m2, {u}) && u in users
    ensures UserMetaGrew(m0, m2, users)
  {
    UserMetaGrewCompose(m0, m1, m2, users, {u});
    assert users + {u} == users;
  }

  /** Two steps that each grow one user's meta grow that user's meta. */
  lemma MetaGrewStep(m0: Savepoint, m1: Savepoint, m2: Savepoint, u: int)
    requires UserMetaGrew(m0, m1, {u}) && UserMetaGrew(m1, m2, {u})
    ensures UserMetaGrew(m0, m2, {u})
  {
    UserMetaGrewCompose(m0, m1, m2, {u}, {u});
    assert {u} + {u} == {u};
  }

  /** A user's course progress after one course activity: a missing entry is
      created as `{completed: 0, total: 1}`, a completion raises `completed` to 1,
      nothing else changes, and a `completed` of 1 is never reset. */
  function ProgressAfter(p: map<int, Progress>, course: int, done: bool): (r: map<int, Progress>)
    ensures r.Keys == p.Keys + {course}
    ensures forall c :: c in p && c != course ==> r[c] == p[c]
    ensures course !in p ==> r[course].total == 1 && (r[course].completed == 1 <==> done) && (!done ==> r[course].completed == 0)
    ensures course in p ==> r[course].total == p[course].total
    ensures done ==> r[course].completed == 1
    ensures !done && course in p ==> r[course] == p[course]
    ensures course in p && p[course].completed == 1 ==> r[course].completed == 1
  {
    var entry := if course in p then p[course] else Progress(0, 1);
    p[course := if done then entry.(completed := 1) else entry]
  }

  /** A user's `_sfwd-lesson_completed` after completing `step` of `course` at `time`:
      that one step is set, every other course and step is kept. */
  function StepsAfter(p: map<int, map<int, int>>, course: int, step: int, time: int): (r: map<int, map<int, int>>)
    ensures r.Keys == p.Keys + {course}
    ensures step in r[course] && r[course][step] == time
    ensures forall c :: c in p && c != course ==> r[c] == p[c]
    ensures course in p ==> r[course].Keys == p[course].Keys + {step}
    ensures course in p ==> forall s :: s in p[course] && s != step ==> r[course][s] == p[course][s]
    ensures course !in p ==> r[course].Keys == {step}
  {
    var steps := if course in p then p[course] else map[];
    p[course := steps[step := time]]
  }

  /** The `_sfwd-quizzes` element written for one generated quiz. */
  function Attempt(quiz: int, course: int, percentage: int, passed: bool, time: int, proQuizId: int, started: int, completed: int): QuizAttempt
  {
    QuizAttempt(quiz, percentage, 10, if passed then 1 else 0, if passed then "PASS" else "FAIL", time,
                proQuizId, course, percentage, 100, percentage, completed - started, false, 0, started, completed)
  }

  /** `update_course_progress`: updates `_sfwd-course_progress`; on completion also
      writes `course_completed_<course>` and, when the course has a certificate,
      `completed_certificate_<course>`. */
  method UpdateCourseProgress(db: Database, user: int, course: int, done: bool, time: int, certificates: map<int, int>)
    modifies db`courseProgress, db`legacy
    ensures db.courseProgress == old(db.courseProgress)[user := ProgressAfter(StoredProgress(old(db.courseProgress), user), course, done)]
    ensures !done ==> db.legacy == old(db.legacy)
    ensures done ==> db.legacy == old(db.legacy)[user := CourseMarkers(StoredLegacy(old(db.legacy), user), course, time, certificates)]
    ensures UserMetaGrew(old(db.Mark()), db.Mark(), {user})
  {
    var progress := StoredProgress(db.courseProgress, user);
    if course !in progress {
      progress := progress[course := Progress(0, 1)];
    }
    if done {
      progress := progress[course := progress[course].(completed := 1)];
    }
    assert progress == ProgressAfter(StoredProgress(old(db.courseProgress), user), course, done);
    db.courseProgress := db.courseProgress[user := progress];
    if done {
      var markers := StoredLegacy(db.legacy, user)[CourseCompleted(course) := time];
      if course in certificates && certificates[course] != 0 {
        markers := markers[CompletedCertificate(course) := certificates[course]];
      }
      db.legacy := db.legacy[user := markers];
    }
    CourseProgressGrew(old(db.Mark()), db.Mark(), user, course, done, time, certificates);
  }

  lemma CourseProgressGrew(m0: Savepoint, m1: Savepoint, user: int, course: int, done: bool, time: int, certificates: map<int, int>)
    requires m1.courseProgress == m0.courseProgress[user := ProgressAfter(StoredProgress(m0.courseProgress, user), course, done)]
    requires m1.lessonCompleted == m0.lessonCompleted && m1.quizHistory == m0.quizHistory
    requires !done ==> m1.legacy == m0.legacy
    requires done ==> m1.legacy == m0.legacy[user := CourseMarkers(StoredLegacy(m0.legacy, user), course, time, certificates)]
    ensures UserMetaGrew(m0, m1, {user})
  {
    assert UserGrew(m0, m1, user);
  }

  /** The completion markers a completed course adds: `course_completed_<course>`
      always, `completed_certificate_<course>` when the course has a certificate. */
  function CourseMarkers(l: map<LegacyKey, int>, course: int, time: int, certificates: map<int, int>): (r: map<LegacyKey, int>)
    ensures CourseCompleted(course) in r && r[CourseCompleted(course)] == time
    ensures course in certificates && certificates[course] != 0 ==>
              r.Keys == l.Keys + {CourseCompleted(course), CompletedCertificate(course)} && r[CompletedCertificate(course)] == certificates[course]
    ensures !(course in certificates && certificates[course] != 0) ==> r.Keys == l.Keys + {CourseCompleted(course)}
    ensures forall k :: k in l && k != CourseCompleted(course) && k != CompletedCertificate(course) ==> r[k] == l[k]
    ensures !(course in certificates && certificates[course] != 0) && CompletedCertificate(course) in l ==>
              r[CompletedCertificate(course)] == l[CompletedCertificate(course)]
  {
    var m := l[CourseCompleted(course) := time];
    if course in certificates && certificates[course] != 0 then m[CompletedCertificate(course) := certificates[course]] else m
  }

  /** `mark_lesson_complete`: records the step in `_sfwd-lesson_completed` and in
      `completed_<course>_<step>`, both with the current time. */
  method MarkLessonComplete(db: Database, user: int, course: int, step: int, time: int)
    modifies db`lessonCompleted, db`legacy
    ensures db.lessonCompleted == old(db.lessonCompleted)[user := StepsAfter(StoredSteps(old(db.lessonCompleted), user), course, step, time)]
    ensures db.legacy == old(db.legacy)[user := StoredLegacy(old(db.legacy), user)[StepCompleted(course, step) := time]]
    ensures UserMetaGrew(old(db.Mark()), db.Mark(), {user})
  {
    var completed := StoredSteps(db.lessonCompleted, user);
    if course !in completed {
      completed := completed[course := map[]];
    }
    completed := completed[course := completed[course][step := time]];
    assert completed == StepsAfter(StoredSteps(old(db.lessonCompleted), user), course, step, time);
    db.lessonCompleted := db.lessonCompleted[user := completed];
    db.legacy := db.legacy[user := StoredLegacy(db.legacy, user)[StepCompleted(course, step) := time]];
    LessonCompleteGrew(old(db.Mark()), db.Mark(), user, course, step, time);
  }

  lemma LessonCompleteGrew(m0: Savepoint, m1: Savepoint, user: int, course: int, step: int, time: int)
    requires m1.lessonCompleted == m0.lessonCompleted[user := StepsAfter(StoredSteps(m0.lessonCompleted, user), course, step, time)]
    requires m1.legacy == m0.legacy[user := StoredLegacy(m0.legacy, user)[StepCompleted(course, step) := time]]
    requires m1.courseProgress == m0.courseProgress && m1.quizHistory == m0.quizHistory
    ensures UserMetaGrew(m0, m1, {user})
  {
    assert UserGrew(m0, m1, user);
  }

  /** `update_quiz_statistics`: appends exactly one element to the user's
      `_sfwd-quizzes`, with 10 questions, 100 total points and the time spent. */
  method UpdateQuizStatistics(db: Database, user: int, course: int, quiz: int, percentage: int, passed: bool,
                              started: int, completed: int, time: int, proQuizId: int)
    modifies db`quizHistory
    ensures db.quizHistory == old(db.quizHistory)[user := StoredHistory(old(db.quizHistory), user) + [Attempt(quiz, course, percentage, passed, time, proQuizId, started, completed)]]
    ensures var h := db.quizHistory[user];
            && |h| == |StoredHistory(old(db.quizHistory), user)| + 1
            && h[|h| - 1].quiz == quiz && h[|h| - 1].count == 10 && h[|h| - 1].totalPoints == 100
            && h[|h| - 1].timespent == completed - started
            && (h[|h| - 1].pass == 1 <==> passed) && h[|h| - 1].percentage == percentage
    ensures UserMetaGrew(old(db.Mark()), db.Mark(), {user})
  {
    var history := StoredHistory(db.quizHistory, user);
    history := history + [Attempt(quiz, course, percentage, passed, time, proQuizId, started, completed)];
    db.quizHistory := db.quizHistory[user := history];
    QuizHistoryGrew(old(db.Mark()), db.Mark(), user, history[|history| - 1]);
  }

  lemma QuizHistoryGrew(m0: Savepoint, m1: Savepoint, user: int, a: QuizAttempt)
    requires m1.quizHistory == m0.quizHistory[user := StoredHistory(m0.quizHistory, user) + [a]]
    requires m1.courseProgress == m0.courseProgress && m1.lessonCompleted == m0.lessonCompleted && m1.legacy == m0.legacy
    ensures UserMetaGrew(m0, m1, {user})
  {
    assert UserGrew(m0, m1, user);
  }
}
