// `export` and `cleanup`: the two operations that read the simulation ledger.

module Ledger {
  import opened Wrappers
  import opened Records
  import opened Storage
  import opened Aggregates
  import opened Outcomes
  import opened Recorder
  import opened Generator

  // ---------------------------------------------------------------------------
  // export

  /** The contents of a file under the uploads directory: the guard file the
      exports directory is created with, or a JSON export of a ledger. */
  datatype FileBody = SilenceIsGolden | ExportOf(data: Batch)

  /** `wp_upload_dir()` and the files below it. */
  class Uploads {
    const basedir: string
    const baseurl: string
    var dirs: set<string>
    var files: map<string, FileBody>

    constructor (basedir: string, baseurl: string)
      ensures this.basedir == basedir && this.baseurl == baseurl && dirs == {} && files == map[]
    {
      this.basedir, this.baseurl := basedir, baseurl;
      dirs, files := {}, map[];
    }
  }

  /** What a successful export reports. */
  datatype Exported = Exported(file: string, path: string, url: string)

  const ExportsDir: string := "/learndash-activity-exports"
  const ExportPrefix: string := "learndash-activity-export-"
  const ExportSuffix: string := ".json"

  /** The export file name for a `Y-m-d-H-i-s` timestamp. */
  function ExportName(stamp: string): (name: string)
    ensures |name| == |ExportPrefix| + |stamp| + |ExportSuffix|
    ensures name[..|ExportPrefix|] == ExportPrefix && name[|name| - |ExportSuffix|..] == ExportSuffix
    ensures name[|ExportPrefix|..|name| - |ExportSuffix|] == stamp
  {
    ExportPrefix + stamp + ExportSuffix
  }

  /** Two exports at different timestamps never share a file name. */
  lemma ExportNameInjective(a: string, b: string)
    requires ExportName(a) == ExportName(b)
    ensures a == b
  {
    var n := ExportName(a);
    assert a == n[|ExportPrefix|..|n| - |ExportSuffix|] == b;
  }

  /** `export`: writes the ledger, unchanged, to a new file named after the
      time `stamp`. `written` is whether `file_put_contents` succeeded. */
  method Export(db: Database, up: Uploads, stamp: string, written: bool) returns (r: Result<Exported, Error>)
    modifies up`dirs, up`files
    ensures db.ledger.None? <==> r == Failure(NoData)
    ensures db.ledger.None? ==> up.dirs == old(up.dirs) && up.files == old(up.files)
    ensures db.ledger.Some? && !written ==> r == Failure(ExportFailed)
    ensures db.ledger.Some? && written ==> r.Success?
    ensures r.Success? ==>
              && written
              && r.value.file == ExportName(stamp)
              && r.value.path == up.basedir + ExportsDir + "/" + r.value.file
              && r.value.url == up.baseurl + ExportsDir + "/" + r.value.file
              && r.value.path in up.files && up.files[r.value.path] == ExportOf(db.ledger.value)
    ensures db.ledger.Some? ==>
              var dir := up.basedir + ExportsDir;
              && up.dirs == old(up.dirs) + {dir}
              && (dir !in old(up.dirs) ==> dir + "/index.php" in up.files && up.files[dir + "/index.php"] == SilenceIsGolden)
              && (forall f :: f in up.files ==> f in old(up.files) || f == dir + "/index.php" || f == dir + "/" + ExportName(stamp))
              && (forall f :: f in old(up.files) && (f == dir + "/index.php" ==> dir in old(up.dirs)) && (f == dir + "/" + ExportName(stamp) ==> !written) ==>
                    f in up.files && up.files[f] == old(up.files)[f])
  {
    if db.ledger.None? {
      return Failure(NoData);
    }
    var dir := up.basedir + ExportsDir;
    if dir !in up.dirs {
      up.dirs := up.dirs + {dir};
      up.files := up.files[dir + "/index.php" := SilenceIsGolden];
    }
    var file := ExportName(stamp);
    var path := dir + "/" + file;
    if !written {
      return Failure(ExportFailed);
    }
    up.files := up.files[path := ExportOf(db.ledger.value)];
    r := Success(Exported(file, path, up.baseurl + ExportsDir + "/" + file));
  }

  // ---------------------------------------------------------------------------
  // cleanup

  /** What a successful cleanup reports. */
  datatype Cleaned = Cleaned(deletedActivity: int, deletedMeta: int)

  /** The ids listed for the given students. */
  function IdsOf(activity: map<int, StudentActivity>, users: set<int>): set<int>
  {
    set st, k | st in users && st in activity && k in activity[st].activityIds :: k
  }

  lemma IdsOfAll(b: Batch)
    ensures IdsOf(b.activity, b.activity.Keys) == LedgerIds(b)
  {
  }

  const CompletedPrefix: string := "completed_"
  const CourseCompletedPrefix: string := "course_completed_"
  const CertificatePrefix: string := "completed_certificate_"

  /** Whether the legacy delete matches a user-meta key: every key that starts
      with `completed_`, `course_completed_` or `completed_certificate_`, so
      every completion marker the generator writes. */
  predicate SimulationKey(k: LegacyKey)
  {
    match k
    case OtherKey(name) =>
      || CompletedPrefix <= name
      || CourseCompletedPrefix <= name
      || CertificatePrefix <= name
    case _ => true
  }

  /** A user's single-valued keys after the legacy delete. */
  function KeepLegacy(l: map<LegacyKey, int>): (r: map<LegacyKey, int>)
    ensures forall k :: k in r <==> k in l && !SimulationKey(k)
    ensures forall k :: k in r ==> r[k] == l[k]
    ensures forall c :: CourseCompleted(c) !in r && CompletedCertificate(c) !in r
    ensures forall c, step :: StepCompleted(c, step) !in r
  {
    map k | k in l && !SimulationKey(k) :: l[k]
  }

  /** The single-valued keys of every user after the legacy delete for `users`. */
  function CleanLegacy(legacy: map<int, map<LegacyKey, int>>, users: set<int>): map<int, map<LegacyKey, int>>
  {
    map u | u in legacy :: if u in users then KeepLegacy(legacy[u]) else legacy[u]
  }

  /** The quizzes the filter drops: `$simulation_data['quizzes'] ?? []`. The
      ledger has no such key, so the list is always empty. */
  function TrackedQuizzes(b: Batch): set<int>
  {
    {}
  }

  /** A quiz history with every attempt at one of `quizzes` dropped, in order. */
  function DropAttempts(h: seq<QuizAttempt>, quizzes: set<int>): (r: seq<QuizAttempt>)
    ensures forall a :: a in r <==> a in h && a.quiz !in quizzes
    ensures |r| <= |h|
  {
    if h == [] then []
    else (if h[0].quiz in quizzes then [] else [h[0]]) + DropAttempts(h[1..], quizzes)
  }

  lemma {:induction false} DropNothing(h: seq<QuizAttempt>)
    ensures DropAttempts(h, {}) == h
  {
    if h != [] {
      DropNothing(h[1..]);
    }
  }

  /** One user's `_sfwd-quizzes` after the cleanup filter. */
  method FilterQuizHistory(db: Database, user: int, b: Batch)
    modifies db`quizHistory
    ensures db.quizHistory == old(db.quizHistory)
  {
    if user in db.quizHistory && db.quizHistory[user] != [] {
      var history := DropAttempts(db.quizHistory[user], TrackedQuizzes(b));
      DropNothing(db.quizHistory[user]);
      db.quizHistory := db.quizHistory[user := history];
    }
  }

  /** The two DELETE statements of one student: the meta rows, then the
      activity rows, whose id the student's list names. A student with an empty
      list is skipped. */
  method DeleteListed(db: Database, ids: seq<int>) returns (activityCount: nat, metaCount: nat)
    modifies db`rows, db`meta
    ensures db.rows == old(db.rows) - set k | k in ids
    ensures db.meta == KeepMeta(old(db.meta), set k | k in ids)
    ensures activityCount == |old(db.rows)| - |db.rows| && metaCount == |old(db.meta)| - |db.meta|
  {
    var gone := set k | k in ids;
    if ids == [] {
      assert gone == {};
      assert db.rows - gone == db.rows;
      KeepAll(db.meta);
      return 0, 0;
    }
    metaCount := db.DeleteMeta(gone);
    activityCount := db.DeleteRows(gone);
  }

  /** The user-meta part of one student's cleanup: both progress keys whole,
      the quiz-history filter and the completion markers. */
  method CleanUserMeta(db: Database, st: int, b: Batch)
    modifies db`courseProgress, db`lessonCompleted, db`quizHistory, db`legacy
    ensures db.courseProgress == old(db.courseProgress) - {st}
    ensures db.lessonCompleted == old(db.lessonCompleted) - {st}
    ensures db.quizHistory == old(db.quizHistory)
    ensures db.legacy == CleanLegacy(old(db.legacy), {st})
  {
    db.courseProgress := db.courseProgress - {st};
    db.lessonCompleted := db.lessonCompleted - {st};
    FilterQuizHistory(db, st, b);
    if st in db.legacy {
      db.legacy := db.legacy[st := KeepLegacy(db.legacy[st])];
    }
  }

  lemma CleanLegacyStep(legacy: map<int, map<LegacyKey, int>>, done: set<int>, st: int)
    ensures CleanLegacy(CleanLegacy(legacy, done), {st}) == CleanLegacy(legacy, done + {st})
  {
    var l1 := CleanLegacy(legacy, done);
    forall u | u in legacy && u in done && u == st
      ensures KeepLegacy(KeepLegacy(legacy[u])) == KeepLegacy(legacy[u])
    {
    }
  }

  lemma IdsOfStep(activity: map<int, StudentActivity>, done: set<int>, st: int)
    requires st in activity
    ensures IdsOf(activity, done) + (set k | k in activity[st].activityIds) == IdsOf(activity, done + {st})
  {
    var before, after := IdsOf(activity, done), IdsOf(activity, done + {st});
    var listed := set k | k in activity[st].activityIds;
    forall k | k in after
      ensures k in before + listed
    {
      var u :| u in done + {st} && u in activity && k in activity[u].activityIds;
      if u != st {
        assert k in before;
      }
    }
    forall k | k in before + listed
      ensures k in after
    {
      if k in before {
        var u :| u in done && u in activity && k in activity[u].activityIds;
        assert u in done + {st};
      } else {
        assert st in done + {st};
      }
    }
  }

  /** From the tables `rows0`, `meta0` to `rows`, `meta` exactly the listed
      rows of the students in `done` were deleted. */
  ghost predicate TablesCleaned(rows0: map<int, ActivityRow>, meta0: seq<MetaRow>, rows: map<int, ActivityRow>, meta: seq<MetaRow>,
                                b: Batch, done: set<int>)
  {
    && rows == rows0 - IdsOf(b.activity, done)
    && meta == KeepMeta(meta0, IdsOf(b.activity, done))
  }

  /** From the user meta of `t0` to the given maps exactly the keys of the
      students in `done` were cleaned. */
  ghost predicate UserMetaCleaned(t0: Savepoint, courseProgress: map<int, map<int, Progress>>,
                                  lessonCompleted: map<int, map<int, map<int, int>>>,
                                  quizHistory: map<int, seq<QuizAttempt>>, legacy: map<int, map<LegacyKey, int>>, done: set<int>)
  {
    && courseProgress == t0.courseProgress - done
    && lessonCompleted == t0.lessonCompleted - done
    && quizHistory == t0.quizHistory
    && legacy == CleanLegacy(t0.legacy, done)
  }

  /** The activity tables part of one iteration of the cleanup loop. */
  method DeleteStudentRows(db: Database, b: Batch, st: int, ghost t0: Savepoint, ghost done: set<int>)
    returns (activityCount: nat, metaCount: nat)
    requires st in b.activity && TablesCleaned(t0.rows, t0.meta, db.rows, db.meta, b, done)
    modifies db`rows, db`meta
    ensures TablesCleaned(t0.rows, t0.meta, db.rows, db.meta, b, done + {st})
    ensures activityCount == |old(db.rows)| - |db.rows| && metaCount == |old(db.meta)| - |db.meta|
  {
    var ids := b.activity[st].activityIds;
    ghost var gone := IdsOf(b.activity, done);
    ghost var listed := set k | k in ids;
    activityCount, metaCount := DeleteListed(db, ids);
    IdsOfStep(b.activity, done, st);
    MinusTwice(t0.rows, gone, listed);
    KeepMetaTwice(t0.meta, gone, listed);
  }

  /** The user-meta part of one iteration of the cleanup loop. */
  method CleanStudentMeta(db: Database, b: Batch, st: int, ghost t0: Savepoint, ghost done: set<int>)
    requires UserMetaCleaned(t0, db.courseProgress, db.lessonCompleted, db.quizHistory, db.legacy, done)
    modifies db`courseProgress, db`lessonCompleted, db`quizHistory, db`legacy
    ensures UserMetaCleaned(t0, db.courseProgress, db.lessonCompleted, db.quizHistory, db.legacy, done + {st})
  {
    CleanUserMeta(db, st, b);
    MinusTwice(t0.courseProgress, done, {st});
    MinusTwice(t0.lessonCompleted, done, {st});
    CleanLegacyStep(t0.legacy, done, st);
  }

  lemma MinusTwice<K, V>(m: map<K, V>, a: set<K>, b: set<K>)
    ensures (m - a) - b == m - (a + b)
  {
  }

  /** Some element of a non-empty set. */
  method Pick(s: set<int>) returns (x: int)
    requires s != {}
    ensures x in s
  {
    if forall y :: y !in s {
      assert false;
    }
    x :| x in s;
  }

  /** Moving one element between the two halves of a partition. */
  lemma MoveOne(todo: set<int>, done: set<int>, st: int)
    requires st in todo && todo !! done
    ensures (todo - {st}) + (done + {st}) == todo + done && (todo - {st}) !! (done + {st})
    ensures |todo - {st}| < |todo|
  {
  }

  /** The student loop of `cleanup`, over the students of the ledger's
      `activity`. Their order does not change the outcome. */
  method CleanStudents(db: Database, b: Batch) returns (deletedActivity: int, deletedMeta: int)
    modifies db`rows, db`meta, db`courseProgress, db`lessonCompleted, db`quizHistory, db`legacy
    ensures TablesCleaned(old(db.rows), old(db.meta), db.rows, db.meta, b, b.activity.Keys)
    ensures UserMetaCleaned(old(db.Mark()), db.courseProgress, db.lessonCompleted, db.quizHistory, db.legacy, b.activity.Keys)
    ensures deletedActivity == |old(db.rows)| - |db.rows| && deletedMeta == |old(db.meta)| - |db.meta|
  {
    deletedActivity, deletedMeta := 0, 0;
    var todo := b.activity.Keys;
    ghost var t0 := db.Mark();
    ghost var done: set<int> := {};
    CleanedNone(t0, b);
    while todo != {}
      invariant todo + done == b.activity.Keys && todo !! done
      invariant TablesCleaned(t0.rows, t0.meta, db.rows, db.meta, b, done)
      invariant UserMetaCleaned(t0, db.courseProgress, db.lessonCompleted, db.quizHistory, db.legacy, done)
      invariant deletedActivity == |t0.rows| - |db.rows| && deletedMeta == |t0.meta| - |db.meta|
      decreases |todo|
    {
      var st := Pick(todo);
      var activityCount, metaCount := DeleteStudentRows(db, b, st, t0, done);
      CleanStudentMeta(db, b, st, t0, done);
      deletedActivity, deletedMeta := deletedActivity + activityCount, deletedMeta + metaCount;
      MoveOne(todo, done, st);
      todo, done := todo - {st}, done + {st};
    }
  }

  /** `cleanup`: deletes every row and meta row the ledger lists, the listed
      students' progress keys and completion markers, then the ledger. */
  method Cleanup(db: Database) returns (r: Result<Cleaned, Error>)
    requires db.Valid()
    modifies db`rows, db`meta, db`courseProgress, db`lessonCompleted, db`quizHistory, db`legacy, db`ledger
    ensures db.Valid()
    ensures old(db.ledger).None? <==> r == Failure(NoData)
    ensures old(db.ledger).None? ==> db.Mark() == old(db.Mark()) && db.ledger == old(db.ledger)
    ensures old(db.ledger).Some? ==>
              var b := old(db.ledger).value;
              && r.Success?
              && db.rows == old(db.rows) - LedgerIds(b)
              && db.meta == KeepMeta(old(db.meta), LedgerIds(b))
              && r.value.deletedActivity == |old(db.rows)| - |db.rows|
              && r.value.deletedMeta == |old(db.meta)| - |db.meta|
              && db.courseProgress == old(db.courseProgress) - b.activity.Keys
              && db.lessonCompleted == old(db.lessonCompleted) - b.activity.Keys
              && db.quizHistory == old(db.quizHistory)
              && db.legacy == CleanLegacy(old(db.legacy), b.activity.Keys)
              && db.ledger == None
  {
    if db.ledger.None? {
      return Failure(NoData);
    }
    var b := db.ledger.value;
    ghost var t0 := db.Snapshot();
    var deletedActivity, deletedMeta := CleanStudents(db, b);
    IdsOfAll(b);
    DeletedValid(t0.rows, t0.meta, t0.nextId, LedgerIds(b));
    db.ledger := None;
    r := Success(Cleaned(deletedActivity, deletedMeta));
  }

  lemma CleanedNone(t0: Savepoint, b: Batch)
    ensures TablesCleaned(t0.rows, t0.meta, t0.rows, t0.meta, b, {})
    ensures UserMetaCleaned(t0, t0.courseProgress, t0.lessonCompleted, t0.quizHistory, t0.legacy, {})
  {
    assert IdsOf(b.activity, {}) == {};
    assert t0.rows - {} == t0.rows;
    KeepAll(t0.meta);
    assert t0.courseProgress - {} == t0.courseProgress;
    assert t0.lessonCompleted - {} == t0.lessonCompleted;
    assert CleanLegacy(t0.legacy, {}) == t0.legacy;
  }

  // ---------------------------------------------------------------------------
  // generate, then cleanup

  /** Cleanup undoes a generate: deleting the ids a ledger lists from the
      tables a generate left behind gives back the tables it started from,
      provided nothing was added that the ledger does not list. */
  lemma CleanupUndoesGenerate(t0: Tables, t1: Tables, b: Batch)
    requires (forall k :: k in t0.rows ==> k < t0.nextId) && (forall j :: 0 <= j < |t0.meta| ==> t0.meta[j].activityId < t0.nextId)
    requires GeneratedFrom(t0, t1, b.activity) && OnlyListed(t0, t1, b.activity)
    ensures t1.rows - LedgerIds(b) == t0.rows
    ensures KeepMeta(t1.meta, LedgerIds(b)) == t0.meta
  {
    var ids := LedgerIds(b);
    forall k | k in ids
      ensures t0.nextId <= k
    {
      var st, i :| st in b.activity && 0 <= i < |b.activity[st].activityIds| && b.activity[st].activityIds[i] == k;
    }
    forall k | k in t1.rows - ids
      ensures k in t0.rows
    {
    }
    forall k | k in t0.rows
      ensures k in t1.rows - ids && t1.rows[k] == t0.rows[k]
    {
    }
    var rest := t1.meta[|t0.meta|..];
    assert t1.meta == t0.meta + rest;
    KeepMetaPrefix(t0.meta, rest, ids);
  }

  /** A generate followed by a cleanup: when the generate succeeded for a list
      of distinct students, the activity tables are back where they started,
      and the ledger is gone. */
  method GenerateThenCleanup(db: Database, rng: RandomSource, req: Request, clock: Clock, content: Content)
    returns (generated: Result<Generated, Error>, cleaned: Result<Cleaned, Error>)
    requires db.Valid()
    modifies db`rows, db`meta, db`nextId, db`attempts, db`courseProgress, db`lessonCompleted, db`legacy, db`quizHistory,
             db`ledger, rng`cursor
    ensures db.Valid()
    ensures generated.Success? && NoDuplicates(ParseArgs(req).students) ==>
              cleaned.Success? && db.rows == old(db.rows) && db.meta == old(db.meta) && db.ledger == None
  {
    ghost var t0 := db.Snapshot();
    generated := Generate(db, rng, req, clock, content);
    ghost var t1 := db.Snapshot();
    cleaned := Cleanup(db);
    if generated.Success? && NoDuplicates(ParseArgs(req).students) {
      CleanupUndoesGenerate(t0, t1, generated.value.data);
    }
  }

  /** Once cleaned up, the ledger is gone: a second cleanup and an export both
      report that there is no data. */
  method CleanupThenExport(db: Database, up: Uploads, stamp: string, written: bool)
    returns (first: Result<Cleaned, Error>, second: Result<Cleaned, Error>, exported: Result<Exported, Error>)
    requires db.Valid()
    modifies db`rows, db`meta, db`courseProgress, db`lessonCompleted, db`quizHistory, db`legacy, db`ledger, up`dirs, up`files
    ensures second == Failure(NoData) && exported == Failure(NoData)
    ensures first.Success? <==> old(db.ledger).Some?
  {
    first := Cleanup(db);
    second := Cleanup(db);
    exported := Export(db, up, stamp, written);
  }
}
