// `generate`: the batch of every selected student inside one transaction,
// committed and remembered in the ledger, or rolled back as a whole.

module Generator {
  import opened Wrappers
  import opened Records
  import opened Storage
  import opened Outcomes
  import opened Recorder
  import opened Aggregates

  /** From `t0` to `t1` old rows stayed, meta rows were only appended, and
      every id listed for a student is a row inserted since `t0` for that student. */
  ghost predicate GeneratedFrom(t0: Tables, t1: Tables, activity: map<int, StudentActivity>)
  {
    && t0.nextId <= t1.nextId
    && (forall k :: k in t0.rows ==> k in t1.rows && t1.rows[k] == t0.rows[k])
    && |t0.meta| <= |t1.meta| && t1.meta[..|t0.meta|] == t0.meta
    && (forall st, i :: st in activity && 0 <= i < |activity[st].activityIds| ==>
          var k := activity[st].activityIds[i];
          t0.nextId <= k < t1.nextId && k in t1.rows && t1.rows[k].userId == st)
  }

  /** Nothing was added from `t0` to `t1` that the activity does not list. */
  ghost predicate OnlyListed(t0: Tables, t1: Tables, activity: map<int, StudentActivity>)
  {
    && (forall k :: k in t1.rows && k !in t0.rows ==> k in ActivityIds(activity))
    && (forall j :: |t0.meta| <= j < |t1.meta| ==> t1.meta[j].activityId in ActivityIds(activity))
  }

  lemma GeneratedStep(t0: Tables, t1: Tables, t2: Tables, activity: map<int, StudentActivity>, st: int, act: StudentActivity)
    requires GeneratedFrom(t0, t1, activity) && Grew(t1, t2, act.activityIds, st)
    ensures GeneratedFrom(t0, t2, activity[st := act])
  {
    assert t2.meta[..|t0.meta|] == t2.meta[..|t1.meta|][..|t0.meta|];
  }

  lemma GeneratedKept(t0: Tables, t1: Tables, t2: Tables, activity: map<int, StudentActivity>, ids: seq<int>, st: int)
    requires GeneratedFrom(t0, t1, activity) && Grew(t1, t2, ids, st)
    ensures GeneratedFrom(t0, t2, activity)
  {
    assert t2.meta[..|t0.meta|] == t2.meta[..|t1.meta|][..|t0.meta|];
  }

  lemma {:induction false} OnlyListedStep(t0: Tables, t1: Tables, t2: Tables, activity: map<int, StudentActivity>, st: int, act: StudentActivity)
    requires OnlyListed(t0, t1, activity) && Grew(t1, t2, act.activityIds, st)
    requires st !in activity && GeneratedFrom(t0, t1, activity)
    ensures OnlyListed(t0, t2, activity[st := act])
  {
    var next := activity[st := act];
    forall k | k in ActivityIds(activity)
      ensures k in ActivityIds(next)
    {
      var st', i :| st' in activity && 0 <= i < |activity[st'].activityIds| && activity[st'].activityIds[i] == k;
      assert st' != st && next[st'] == activity[st'];
    }
    forall k | k in act.activityIds
      ensures k in ActivityIds(next)
    {
      assert st in next && k in next[st].activityIds;
    }
    forall j | |t0.meta| <= j < |t2.meta|
      ensures t2.meta[j].activityId in ActivityIds(next)
    {
      if j < |t1.meta| {
        assert t2.meta[j] == t2.meta[..|t1.meta|][j] == t1.meta[j];
      }
    }
  }

  /** The content queries returned for the first `n` students. */
  ghost predicate ReachedFirst(content: Content, s: Settings, n: nat)
    requires n <= |s.students|
  {
    forall j :: 0 <= j < n ==> ReachableAll(content, s.courses, s.students[j])
  }

  lemma ReachedNext(content: Content, s: Settings, n: nat)
    requires n < |s.students| && ReachedFirst(content, s, n) && ReachableAll(content, s.courses, s.students[n])
    ensures ReachedFirst(content, s, n + 1)
  {
  }

  /** The student loop after `n` students: exactly the first `n` students have
      an activity, each with an entry for every course and its content covered. */
  ghost predicate BatchSoFar(content: Content, s: Settings, courses: set<int>, activity: map<int, StudentActivity>, n: int)
  {
    && 0 <= n <= |s.students|
    && (forall j :: 0 <= j < n ==> s.students[j] in activity)
    && (forall st :: st in activity ==> st in s.students)
    && (forall st :: st in activity ==> activity[st].courses.Keys == courses)
    && (forall st :: st in activity ==> CoursesCovered(content, s.courses, |s.courses|, st, activity[st]))
  }

  lemma BatchNext(content: Content, s: Settings, courses: set<int>, activity: map<int, StudentActivity>, n: int, act: StudentActivity)
    requires BatchSoFar(content, s, courses, activity, n) && n < |s.students|
    requires act.courses.Keys == courses
    requires CoursesCovered(content, s.courses, |s.courses|, s.students[n], act)
    ensures BatchSoFar(content, s, courses, activity[s.students[n] := act], n + 1)
  {
  }

  /** Every student's activity is recorded against the rows. */
  ghost predicate AllRecorded(activity: map<int, StudentActivity>, rows: map<int, ActivityRow>, w: Window, s: Settings, full: bool)
  {
    forall st :: st in activity ==> Recorded(activity[st], rows, st, w, s, full)
  }

  lemma AllRecordedMono(activity: map<int, StudentActivity>, rows: map<int, ActivityRow>, rows2: map<int, ActivityRow>,
                        w: Window, s: Settings, full: bool)
    requires AllRecorded(activity, rows, w, s, full)
    requires forall k :: k in rows ==> k in rows2 && rows2[k] == rows[k]
    ensures AllRecorded(activity, rows2, w, s, full)
  {
    forall st | st in activity
      ensures Recorded(activity[st], rows2, st, w, s, full)
    {
      RecordedMono(activity[st], rows, rows2, st, w, s, full);
    }
  }

  /** The students of a list, as a set. */
  function Listed(students: seq<int>): (r: set<int>)
    ensures forall st :: st in r <==> st in students
  {
    set st | st in students
  }

  /** What the student loop has written since `t0`/`m0`: the listed ids are
      new rows of their students, the activities are recorded, nothing
      unlisted was added when `unique`, and only `students` had meta grow. */
  ghost predicate BatchWritten(t0: Tables, m0: Savepoint, t: Tables, m: Savepoint, activity: map<int, StudentActivity>,
                               w: Window, s: Settings, full: bool, students: set<int>, unique: bool)
  {
    && GeneratedFrom(t0, t, activity)
    && AllRecorded(activity, t.rows, w, s, full)
    && (unique ==> OnlyListed(t0, t, activity))
    && UserMetaGrew(m0, m, students)
  }

  /** One iteration of the student loop: the student's activity, written on
      top of what the earlier iterations wrote. */
  method VisitStudent(db: Database, rng: RandomSource, st: int, s: Settings, clock: Clock, content: Content,
                      ghost activity: map<int, StudentActivity>, ghost t0: Tables, ghost m0: Savepoint, ghost students: set<int>,
                      ghost unique: bool)
    returns (act: StudentActivity, ok: bool)
    requires db.Valid() && s.activityDays >= 1
    requires BatchWritten(t0, m0, db.Snapshot(), db.Mark(), activity, WindowOf(clock.now, s.activityDays), s, db.AlwaysAccepts(), students, unique)
    requires st in students && (unique ==> st !in activity)
    modifies db`rows, db`meta, db`nextId, db`attempts, db`courseProgress, db`lessonCompleted, db`legacy, db`quizHistory, rng`cursor
    ensures db.Valid()
    ensures BatchWritten(t0, m0, db.Snapshot(), db.Mark(), activity, WindowOf(clock.now, s.activityDays), s, db.AlwaysAccepts(), students, false)
    ensures BatchWritten(t0, m0, db.Snapshot(), db.Mark(), activity[st := act], WindowOf(clock.now, s.activityDays), s, db.AlwaysAccepts(), students, unique)
    ensures ok <==> ReachableAll(content, s.courses, st)
    ensures ok ==> act.courses.Keys == set c | c in s.courses
    ensures ok ==> CoursesCovered(content, s.courses, |s.courses|, st, act)
  {
    ghost var t1 := db.Snapshot();
    ghost var m1 := db.Mark();
    act, ok := GenerateStudentActivity(db, rng, st, s, clock, content);
    AllRecordedMono(activity, t1.rows, db.rows, WindowOf(clock.now, s.activityDays), s, db.AlwaysAccepts());
    UserMetaGrewWithin(m0, m1, db.Mark(), students, st);
    GeneratedKept(t0, t1, db.Snapshot(), activity, act.activityIds, st);
    GeneratedStep(t0, t1, db.Snapshot(), activity, st, act);
    if unique {
      OnlyListedStep(t0, t1, db.Snapshot(), activity, st, act);
    }
  }

  /** The student loop of `generate`: each student's activity in order, until
      a content query raises (`ok` false). */
  method GenerateBatch(db: Database, rng: RandomSource, s: Settings, clock: Clock, content: Content)
    returns (activity: map<int, StudentActivity>, ok: bool)
    requires db.Valid() && s.activityDays >= 1
    modifies db`rows, db`meta, db`nextId, db`attempts, db`courseProgress, db`lessonCompleted, db`legacy, db`quizHistory, rng`cursor
    ensures db.Valid()
    ensures GeneratedFrom(old(db.Snapshot()), db.Snapshot(), activity)
    ensures ok <==> forall st :: st in s.students ==> ReachableAll(content, s.courses, st)
    ensures ok ==> activity.Keys == set st | st in s.students
    ensures forall st :: st in activity ==> activity[st].courses.Keys == set c | c in s.courses
    ensures forall st :: st in activity ==> Recorded(activity[st], db.rows, st, WindowOf(clock.now, s.activityDays), s, db.AlwaysAccepts())
    ensures forall st :: st in activity ==> CoursesCovered(content, s.courses, |s.courses|, st, activity[st])
    ensures ok && NoDuplicates(s.students) ==> OnlyListed(old(db.Snapshot()), db.Snapshot(), activity)
    ensures UserMetaGrew(old(db.Mark()), db.Mark(), Listed(s.students))
  {
    var w := WindowOf(clock.now, s.activityDays);
    ghost var t0 := db.Snapshot();
    ghost var m0 := db.Mark();
    ghost var students := Listed(s.students);
    ghost var courses := set c | c in s.courses;
    UserMetaSame(m0, m0, students);
    activity := map[];
    assert t0.meta[..|t0.meta|] == t0.meta;
    for i := 0 to |s.students|
      invariant db.Valid()
      invariant BatchSoFar(content, s, courses, activity, i)
      invariant ReachedFirst(content, s, i)
      invariant BatchWritten(t0, m0, db.Snapshot(), db.Mark(), activity, w, s, db.AlwaysAccepts(), students, NoDuplicates(s.students))
      invariant NoDuplicates(s.students) ==> forall j :: i <= j < |s.students| ==> s.students[j] !in activity
    {
      var st := s.students[i];
      var act;
      act, ok := VisitStudent(db, rng, st, s, clock, content, activity, t0, m0, students, NoDuplicates(s.students));
      if !ok {
        return;
      }
      ReachedNext(content, s, i);
      BatchNext(content, s, courses, activity, i, act);
      activity := activity[st := act];
    }
    ok := true;
    KeysCovered(activity.Keys, {}, s.students);
  }

  /** `generate`. The inputs are checked in the source's order; a window shorter
      than a day makes the first draw raise before anything is written. */
  method Generate(db: Database, rng: RandomSource, req: Request, clock: Clock, content: Content)
    returns (r: Result<Generated, Error>)
    requires db.Valid()
    modifies db`rows, db`meta, db`nextId, db`attempts, db`courseProgress, db`lessonCompleted, db`legacy, db`quizHistory,
             db`ledger, rng`cursor
    ensures db.Valid()
    ensures var s := ParseArgs(req);
            && (r == Failure(NoStudents) <==> s.students == [])
            && (r == Failure(NoCourses) <==> s.students != [] && s.courses == [])
            && (r == Failure(DrawRange) <==> s.students != [] && s.courses != [] && s.activityDays < 1)
            && (r.Success? <==>
                  && s.students != [] && s.courses != [] && s.activityDays >= 1
                  && forall st :: st in s.students ==> ReachableAll(content, s.courses, st))
    ensures r.Failure? ==> db.Mark() == old(db.Mark()) && db.ledger == old(db.ledger)
    ensures r.Failure? && r.error != GenerationFailed ==> db.nextId == old(db.nextId) && db.attempts == old(db.attempts)
    ensures r.Success? ==>
              var s, b := ParseArgs(req), r.value.data;
              && db.ledger == Some(b)
              && r.value.studentCount == |s.students|
              && b.students == s.students && b.courses == s.courses && b.timestamp == clock.mysql
              && b.activity.Keys == (set st | st in s.students)
              && (forall st :: st in b.activity ==> b.activity[st].courses.Keys == set c | c in s.courses)
              && (forall st :: st in b.activity ==> Recorded(b.activity[st], db.rows, st, WindowOf(clock.now, s.activityDays), s, db.AlwaysAccepts()))
              && (forall st :: st in b.activity ==> CoursesCovered(content, s.courses, |s.courses|, st, b.activity[st]))
              && (db.AlwaysAccepts() ==> forall st :: st in b.activity ==> NoneZeroed(b.activity[st]))
              && GeneratedFrom(old(db.Snapshot()), db.Snapshot(), b.activity)
              && (NoDuplicates(s.students) ==> OnlyListed(old(db.Snapshot()), db.Snapshot(), b.activity))
              && UserMetaGrew(old(db.Mark()), db.Mark(), Listed(s.students))
  {
    var s := ParseArgs(req);
    if |s.students| == 0 {
      return Failure(NoStudents);
    }
    if |s.courses| == 0 {
      return Failure(NoCourses);
    }
    if s.activityDays < 1 {
      return Failure(DrawRange);
    }
    var saved := db.Mark();
    var activity, ok := GenerateBatch(db, rng, s, clock, content);
    if !ok {
      db.Rollback(saved);
      return Failure(GenerationFailed);
    }
    if db.AlwaysAccepts() {
      forall st | st in activity
        ensures NoneZeroed(activity[st])
      {
        RecordedFull(activity[st], db.rows, st, WindowOf(clock.now, s.activityDays), s);
      }
    }
    var b := Batch(s.students, s.courses, clock.mysql, activity);
    db.ledger := Some(b);
    r := Success(Generated(|s.students|, b));
  }
}
