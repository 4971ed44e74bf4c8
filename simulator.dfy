// The plugin's admin page: the student list it offers for selection and the
// three actions that hand over to the generator.

module Simulator {
  import opened Wrappers
  import opened Records
  import opened Storage
  import opened Outcomes
  import opened Recorder
  import opened Generator
  import opened Ledger
  import opened Aggregates

  /** A row of `get_users`: the fields the page asks for. */
  datatype User = User(id: int, displayName: string, email: string)

  /** The roles that mark a user as staff rather than a student. */
  const AdminRoles: seq<string> := ["administrator", "editor", "author", "contributor"]

  /** The `foreach` over the candidate roles: false at the first one the user holds. */
  function HoldsNone(candidates: seq<string>, roles: seq<string>): (none: bool)
    ensures none <==> forall i :: 0 <= i < |candidates| ==> candidates[i] !in roles
  {
    if candidates == [] then true
    else if candidates[0] in roles then false
    else HoldsNone(candidates[1..], roles)
  }

  /** The `array_filter` callback. `userdata` is `get_userdata($user->ID)`:
      None when there is no such user, otherwise the user's roles. */
  predicate IsStudent(userdata: Option<seq<string>>)
  {
    match userdata
    case None => false
    case Some(roles) => HoldsNone(AdminRoles, roles)
  }

  /** The filter's verdict, stated role by role. */
  lemma StudentRule(userdata: Option<seq<string>>)
    ensures userdata.None? ==> !IsStudent(userdata)
    ensures userdata.Some? ==>
              (IsStudent(userdata) <==>
                 && "administrator" !in userdata.value && "editor" !in userdata.value
                 && "author" !in userdata.value && "contributor" !in userdata.value)
    ensures userdata == Some([]) ==> IsStudent(userdata)
  {
    if userdata.Some? {
      var roles := userdata.value;
      assert HoldsNone(AdminRoles, roles) <==> forall i :: 0 <= i < |AdminRoles| ==> AdminRoles[i] !in roles;
      assert AdminRoles[0] == "administrator" && AdminRoles[1] == "editor";
      assert AdminRoles[2] == "author" && AdminRoles[3] == "contributor";
    }
  }

  /** The user data `get_userdata` finds for an id. */
  function UserData(directory: map<int, seq<string>>, id: int): Option<seq<string>>
  {
    if id in directory then Some(directory[id]) else None
  }

  /** `array_filter($all_users, ...)`: the students, in the order of `users`. */
  function FilterStudents(users: seq<User>, directory: map<int, seq<string>>): (students: seq<User>)
    ensures |students| <= |users|
    ensures forall u :: u in students <==> u in users && IsStudent(UserData(directory, u.id))
  {
    if users == [] then []
    else
      var rest := FilterStudents(users[1..], directory);
      if IsStudent(UserData(directory, users[0].id)) then [users[0]] + rest else rest
  }

  /** Display names in ascending order, as `get_users` returns them. */
  ghost predicate SortedBy(users: seq<User>, le: (string, string) -> bool)
  {
    forall i, j :: 0 <= i < j < |users| ==> le(users[i].displayName, users[j].displayName)
  }

  /** The filter keeps the order of the list it filters: a list sorted by
      display name stays sorted, whatever the order relation. */
  lemma {:induction false} FilterKeepsOrder(users: seq<User>, directory: map<int, seq<string>>, le: (string, string) -> bool)
    requires SortedBy(users, le)
    ensures SortedBy(FilterStudents(users, directory), le)
  {
    if users != [] {
      var rest := FilterStudents(users[1..], directory);
      assert SortedBy(users[1..], le) by {
        forall i, j | 0 <= i < j < |users[1..]|
          ensures le(users[1..][i].displayName, users[1..][j].displayName)
        {
          assert users[1..][i] == users[i + 1] && users[1..][j] == users[j + 1];
        }
      }
      FilterKeepsOrder(users[1..], directory, le);
      if IsStudent(UserData(directory, users[0].id)) {
        var s := [users[0]] + rest;
        forall i, j | 0 <= i < j < |s|
          ensures le(s[i].displayName, s[j].displayName)
        {
          if i == 0 {
            assert s[j] in users[1..];
            var k :| 0 <= k < |users[1..]| && users[1..][k] == s[j];
            assert users[k + 1] == s[j];
          } else {
            assert s[i] == rest[i - 1] && s[j] == rest[j - 1];
          }
        }
      }
    }
  }

  /** The student list is a subsequence of `users`: each student is the user
      at a strictly increasing position, so ties and repeated rows keep the
      order of the user query. */
  lemma {:induction false} FilterIsSubsequence(users: seq<User>, directory: map<int, seq<string>>) returns (idx: seq<int>)
    ensures |idx| == |FilterStudents(users, directory)|
    ensures forall k :: 0 <= k < |idx| ==> 0 <= idx[k] < |users| && FilterStudents(users, directory)[k] == users[idx[k]]
    ensures forall k, l :: 0 <= k < l < |idx| ==> idx[k] < idx[l]
  {
    if users == [] {
      return [];
    }
    var tail := FilterStudents(users[1..], directory);
    var rest := FilterIsSubsequence(users[1..], directory);
    var shifted := seq(|rest|, k requires 0 <= k < |rest| => rest[k] + 1);
    assert forall k :: 0 <= k < |shifted| ==> 1 <= shifted[k] < |users| && tail[k] == users[shifted[k]] by {
      forall k | 0 <= k < |shifted|
        ensures 1 <= shifted[k] < |users| && tail[k] == users[shifted[k]]
      {
        assert users[1..][rest[k]] == users[rest[k] + 1];
      }
    }
    assert forall k, l :: 0 <= k < l < |shifted| ==> shifted[k] < shifted[l];
    if IsStudent(UserData(directory, users[0].id)) {
      idx := [0] + shifted;
      assert forall k :: 1 <= k < |idx| ==> idx[k] == shifted[k - 1];
      assert FilterStudents(users, directory) == [users[0]] + tail;
    } else {
      idx := shifted;
      assert FilterStudents(users, directory) == tail;
    }
  }

  /** Filtering a concatenation filters each part and keeps them in order. */
  lemma {:induction false} FilterAppend(a: seq<User>, b: seq<User>, directory: map<int, seq<string>>)
    ensures FilterStudents(a + b, directory) == FilterStudents(a, directory) + FilterStudents(b, directory)
  {
    if a != [] {
      assert (a + b)[1..] == a[1..] + b;
      FilterAppend(a[1..], b, directory);
    } else {
      assert a + b == b;
    }
  }

  /** The admin page object and the lists it offers. */
  class AdminPage {
    var courses: seq<int>
    var lessons: seq<int>
    var quizzes: seq<int>
    var students: seq<User>

    constructor ()
      ensures courses == [] && lessons == [] && quizzes == [] && students == []
    {
      courses, lessons, quizzes, students := [], [], [], [];
    }

    /** `get_available_content`: the published courses, lessons and quizzes as
        the queries return them, and every user that passes the student filter. */
    method GetAvailableContent(publishedCourses: seq<int>, publishedLessons: seq<int>, publishedQuizzes: seq<int>,
                               allUsers: seq<User>, directory: map<int, seq<string>>)
      modifies this
      ensures courses == publishedCourses && lessons == publishedLessons && quizzes == publishedQuizzes
      ensures students == FilterStudents(allUsers, directory)
      ensures forall u :: u in students ==> u in allUsers && UserData(directory, u.id).Some?
    {
      courses := publishedCourses;
      lessons := publishedLessons;
      quizzes := publishedQuizzes;
      students := FilterStudents(allUsers, directory);
      forall u | u in students
        ensures u in allUsers && UserData(directory, u.id).Some?
      {
      }
    }
  }

  /** `wp_send_json_success` / `wp_send_json_error`: what the AJAX handler answers. */
  datatype Response<T> = JsonSuccess(data: T) | JsonError(error: Error)

  /** The handler's answer for a generator result: the error when the result is
      a `WP_Error`, the result itself otherwise. */
  function Respond<T>(r: Result<T, Error>): (resp: Response<T>)
    ensures resp.JsonSuccess? <==> r.Success?
    ensures r.Success? ==> resp.data == r.value
    ensures r.Failure? ==> resp.error == r.error
  {
    match r
    case Success(v) => JsonSuccess(v)
    case Failure(e) => JsonError(e)
  }

  /** `generate_activity`: a fresh generator's `generate`, forwarded unchanged. */
  method GenerateActivity(db: Database, rng: RandomSource, data: Request, clock: Clock, content: Content)
    returns (resp: Response<Generated>)
    requires db.Valid()
    modifies db`rows, db`meta, db`nextId, db`attempts, db`courseProgress, db`lessonCompleted, db`legacy, db`quizHistory,
             db`ledger, rng`cursor
    ensures db.Valid()
    ensures var s := ParseArgs(data);
            && (resp == JsonError(NoStudents) <==> s.students == [])
            && (resp == JsonError(NoCourses) <==> s.students != [] && s.courses == [])
            && (resp == JsonError(DrawRange) <==> s.students != [] && s.courses != [] && s.activityDays < 1)
            && (resp.JsonSuccess? <==>
                  && s.students != [] && s.courses != [] && s.activityDays >= 1
                  && forall st :: st in s.students ==> ReachableAll(content, s.courses, st))
    ensures resp.JsonSuccess? ==>
              var s, b := ParseArgs(data), resp.data.data;
              && db.ledger == Some(b)
              && resp.data.studentCount == |s.students|
              && b.students == s.students && b.courses == s.courses && b.timestamp == clock.mysql
              && b.activity.Keys == (set st | st in s.students)
              && (forall st :: st in b.activity ==> b.activity[st].courses.Keys == set c | c in s.courses)
              && (forall st :: st in b.activity ==> Recorded(b.activity[st], db.rows, st, WindowOf(clock.now, s.activityDays), s, db.AlwaysAccepts()))
              && (forall st :: st in b.activity ==> CoursesCovered(content, s.courses, |s.courses|, st, b.activity[st]))
              && (db.AlwaysAccepts() ==> forall st :: st in b.activity ==> NoneZeroed(b.activity[st]))
              && GeneratedFrom(old(db.Snapshot()), db.Snapshot(), b.activity)
              && (NoDuplicates(s.students) ==> OnlyListed(old(db.Snapshot()), db.Snapshot(), b.activity))
              && UserMetaGrew(old(db.Mark()), db.Mark(), Listed(s.students))
    ensures resp.JsonError? ==> db.Mark() == old(db.Mark()) && db.ledger == old(db.ledger)
    ensures resp.JsonError? && resp.error != GenerationFailed ==> db.nextId == old(db.nextId) && db.attempts == old(db.attempts)
  {
    var r := Generate(db, rng, data, clock, content);
    resp := Respond(r);
  }

  /** `export_activity`: a fresh generator's `export`, forwarded unchanged. */
  method ExportActivity(db: Database, up: Uploads, stamp: string, written: bool) returns (resp: Response<Exported>)
    modifies up`dirs, up`files
    ensures resp == JsonError(NoData) <==> db.ledger.None?
    ensures resp == JsonError(ExportFailed) <==> db.ledger.Some? && !written
    ensures resp.JsonSuccess? <==> db.ledger.Some? && written
    ensures db.ledger.None? ==> up.dirs == old(up.dirs) && up.files == old(up.files)
    ensures resp.JsonSuccess? ==>
              && resp.data.file == ExportName(stamp)
              && resp.data.path == up.basedir + ExportsDir + "/" + resp.data.file
              && resp.data.url == up.baseurl + ExportsDir + "/" + resp.data.file
              && resp.data.path in up.files && up.files[resp.data.path] == ExportOf(db.ledger.value)
    ensures db.ledger.Some? ==>
              var dir := up.basedir + ExportsDir;
              && up.dirs == old(up.dirs) + {dir}
              && (dir !in old(up.dirs) ==> dir + "/index.php" in up.files && up.files[dir + "/index.php"] == SilenceIsGolden)
              && (forall f :: f in up.files ==> f in old(up.files) || f == dir + "/index.php" || f == dir + "/" + ExportName(stamp))
              && (forall f :: f in old(up.files) && (f == dir + "/index.php" ==> dir in old(up.dirs)) && (f == dir + "/" + ExportName(stamp) ==> !written) ==>
                    f in up.files && up.files[f] == old(up.files)[f])
  {
    var r := Export(db, up, stamp, written);
    resp := Respond(r);
  }

  /** `cleanup_activity`: the posted `data` is accepted and ignored; the
      generator's `cleanup` takes no arguments. */
  method CleanupActivity(db: Database, data: Request) returns (resp: Response<Cleaned>)
    requires db.Valid()
    modifies db`rows, db`meta, db`courseProgress, db`lessonCompleted, db`quizHistory, db`legacy, db`ledger
    ensures db.Valid()
    ensures resp == JsonError(NoData) <==> old(db.ledger).None?
    ensures old(db.ledger).None? ==> db.Mark() == old(db.Mark()) && db.ledger == old(db.ledger)
    ensures old(db.ledger).Some? ==>
              var b := old(db.ledger).value;
              && resp.JsonSuccess?
              && db.rows == old(db.rows) - LedgerIds(b)
              && db.meta == KeepMeta(old(db.meta), LedgerIds(b))
              && resp.data.deletedActivity == |old(db.rows)| - |db.rows|
              && resp.data.deletedMeta == |old(db.meta)| - |db.meta|
              && db.courseProgress == old(db.courseProgress) - b.activity.Keys
              && db.lessonCompleted == old(db.lessonCompleted) - b.activity.Keys
              && db.quizHistory == old(db.quizHistory)
              && db.legacy == CleanLegacy(old(db.legacy), b.activity.Keys)
              && db.ledger == None
  {
    var r := Cleanup(db);
    resp := Respond(r);
  }
}
