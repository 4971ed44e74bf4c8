# LearnDash Activity Simulator — a Dafny model

This project models the core of the LearnDash Activity Simulator, a WordPress plugin. The plugin
fills the LearnDash activity tables with made-up learner activity and removes it again later.

It covers four parts of the plugin:

- `generate` is the batch generator. For each selected student it walks each course, that course's
  lessons, each lesson's quizzes and topics, and each topic's quizzes. It then visits the
  course-level quizzes the student has not seen yet. Every node it visits gets:
  - one random outcome;
  - one row in `learndash_user_activity`;
  - its meta rows in `learndash_user_activity_meta`;
  - the matching LearnDash user meta (`_sfwd-course_progress`, `_sfwd-lesson_completed`,
    `_sfwd-quizzes` and the single-valued completion markers).

  The whole batch runs inside one transaction. On success the generator keeps a ledger of every
  inserted activity id, stored in the option `las_simulation_data`.
- `export` writes that ledger to a JSON file under the uploads directory.
- `cleanup` deletes every row the ledger lists, together with the students' progress user meta,
  and then forgets the ledger.
- The admin page builds the list of students it offers. It keeps every user who is not an
  administrator, editor, author or contributor, in `display_name` order. Its three AJAX actions
  forward to a fresh generator and wrap the answer in a JSON success or error envelope.

The modules follow the plugin's structure:

| module (file) | what it holds |
|---|---|
| `Records` (records.dfy) | The values: activity rows, meta rows, per-node entries, the ledger (`Batch`), user-meta values and error codes. |
| `Storage` (storage.dfy) | `Database`, a class holding the tables, user meta and the ledger option. It offers the inserts, the deletes and the transaction mark and rollback. |
| `Outcomes` (outcomes.dfy) | `mt_rand` as a `RandomSource` class, the activity window, and the outcome rules for a course, lesson, topic or quiz. |
| `Aggregates` (aggregates.dfy) | `update_course_progress`, `mark_lesson_complete` and `update_quiz_statistics`. |
| `Recorder` (recorder.dfy) | The traversal: one method per generator function and one per loop. |
| `Generator` (generator.dfy) | `generate` and its student loop. |
| `Ledger` (ledger.dfy) | `export`, `cleanup`, and the round trip between `generate` and `cleanup`. |
| `Simulator` (simulator.dfy) | The admin page's student filter and the AJAX delegations. |

The headline results:

- Generating then cleaning up restores both activity tables exactly. This holds for a successful
  batch whose student list has no duplicates (`Ledger.CleanupUndoesGenerate`,
  `Ledger.GenerateThenCleanup`).
- Every id in the ledger is a row inserted by this batch for that student (`Generator.Generate`).
- Each entry in the ledger that is not zeroed names exactly one row. That row agrees with the entry, and its outcome
  obeys the rule for its content type:
  - start times fall inside the window;
  - completion follows the completion rate;
  - a quiz passes exactly when its percentage reaches the pass rate;
  - quiz scores are bounded, and the quiz meta rows agree with the drawn question count.

  When a node is generated, its entry is zeroed exactly when the database refused that node's own
  INSERT (`Recorder.GenerateCourseActivity` and its siblings). Across a whole student or batch,
  an entry is either backed by its row or zeroed, and zeroing happens only when some INSERT is
  refused. So when every INSERT is accepted, no entry is zeroed (`Generator.Generate`).
- The user meta only grows (`Aggregates.UserMetaGrew`). A batch appends to each listed student's `_sfwd-quizzes` and loses no
  course progress key, no completion, no completed lesson and no completion marker. Every user who
  is not a listed student keeps all four user-meta values unchanged
  (`Generator.Generate`, `Simulator.GenerateActivity`).
- On success, every course of every student has its whole content covered: each lesson, each topic
  of each lesson, the quizzes of each lesson and topic, and the course-level quizzes
  (`Recorder.GenerateStudentActivity`, `Generator.GenerateBatch`).
- A failed batch rolls back every table and leaves the ledger as it was.
- The two behaviours of the plugin that look unintended are reproduced as written:
  - the quiz-history filter of `cleanup` removes nothing;
  - topics are stored with activity type `lesson`.

## Model

| member | source | states |
|---|---|---|
| Storage.Database.InsertRow | includes/class-activity-generator.php:134-149 | An accepted insert adds exactly one row, under the next AUTO_INCREMENT id, and that id is `insert_id`. A refused insert changes no row and no id. |
| Storage.Database.InsertMeta | includes/class-activity-generator.php:374-386 | `add_activity_meta` appends exactly its meta row when the insert is accepted, and nothing otherwise. |
| Storage.Database.InsertMetaRows | includes/class-activity-generator.php:156-158 | Consecutive `add_activity_meta` calls append exactly the rows the database accepts, in order, one INSERT each. |
| Storage.AcceptedAll | includes/class-activity-generator.php:374-386 | When every INSERT is accepted, every meta row is written. |
| Storage.AcceptedNone | includes/class-activity-generator.php:374-386 | When every INSERT is refused, no meta row is written. |
| Storage.Database.Rollback | includes/class-activity-generator.php:78-81 | `ROLLBACK` returns the rows, the meta rows and all user meta to the state marked at `START TRANSACTION`. The tables stay consistent. |
| Storage.Database.DeleteRows | includes/class-activity-generator.php:619-624 | Removes exactly the rows whose id is listed and reports how many rows went. |
| Storage.Database.DeleteMeta | includes/class-activity-generator.php:612-617 | Removes exactly the meta rows whose activity id is listed, keeps the rest in order, and reports how many went. |
| Storage.KeepMeta | includes/class-activity-generator.php:612-617 | A meta row survives the delete exactly when its activity id is not listed. |
| Storage.KeepMetaTwice | includes/class-activity-generator.php:607-625 | Deleting the ids of one student and then of another equals deleting the union of their ids at once. |
| Storage.KeepMetaPrefix | includes/class-activity-generator.php:612-617 | Meta rows appended after an untouched prefix, all of them for listed ids, are all removed, and the prefix comes back unchanged. |
| Outcomes.RandomSource.Draw | includes/class-activity-generator.php:544-546 | `mt_rand(lo, hi)` returns a value between `lo` and `hi` inclusive. |
| Outcomes.RandomDate | includes/class-activity-generator.php:544-546 | `random_date` returns a time between its bounds. |
| Outcomes.WindowOf | includes/class-activity-generator.php:94-95 | The window ends now and is `days * 86400` seconds long. It has room for every draw exactly when `days >= 1`. |
| Outcomes.IsCompleted | includes/class-activity-generator.php:128 | A completion rate of 0 or less never completes; 100 or more always completes. |
| Outcomes.CorrectAnswers | includes/class-activity-generator.php:323-324 | The rounded correct answers lie between 0 and the question count. They are 0 at 0% and all questions at 100%. |
| Aggregates.ProgressAfter | includes/class-activity-generator.php:391-409 | A missing course entry is created as 0 of 1. A completion sets `completed` to 1, and a completed course is never reset. No other course changes. |
| Aggregates.UpdateCourseProgress | includes/class-activity-generator.php:391-423 | Updates `_sfwd-course_progress` as above. Only a completion writes the completion marker, plus the certificate marker when the course has a certificate. |
| Aggregates.CourseMarkers | includes/class-activity-generator.php:411-422 | Writes `course_completed_<course>` with the time, and `completed_certificate_<course>` when a certificate id is set. Every other key is kept. |
| Aggregates.StepsAfter | includes/class-activity-generator.php:428-441 | Sets exactly the one step of the one course to the time. Every other course and step is kept. |
| Aggregates.MarkLessonComplete | includes/class-activity-generator.php:428-445 | Updates `_sfwd-lesson_completed` as above and writes `completed_<course>_<step>`. |
| Aggregates.CourseProgressGrew | includes/class-activity-generator.php:391-423 | `update_course_progress` only grows the user's meta: no course entry or completion is lost, no marker key is lost, and every other user is untouched. |
| Aggregates.LessonCompleteGrew | includes/class-activity-generator.php:428-445 | `mark_lesson_complete` only grows the user's meta: no course or step of `_sfwd-lesson_completed` and no marker key is lost, and every other user is untouched. |
| Aggregates.QuizHistoryGrew | includes/class-activity-generator.php:450-480 | `update_quiz_statistics` only grows the user's meta: the old `_sfwd-quizzes` is a prefix of the new one, and every other user is untouched. |
| Aggregates.UpdateQuizStatistics | includes/class-activity-generator.php:450-480 | Appends exactly one attempt to `_sfwd-quizzes`: the quiz, 10 questions, 100 total points, the pass flag and the time spent. |
| Recorder.ParseArgs | includes/class-activity-generator.php:23-30 | Each posted parameter wins. Its absence gives the default: no students, no courses, 30 days, 80% and 75%. |
| Recorder.DrawNodeOutcome | includes/class-activity-generator.php:245-252 | The start is at least a day before the end. The node is either completed inside the window with status 1, or not completed with status 0. Rates 0 and 100 decide it outright. |
| Recorder.DrawQuizOutcome | includes/class-activity-generator.php:315-328 | The start is at least an hour before the end, and the quiz takes 5 to 30 minutes. It passes exactly when the percentage reaches the pass rate. The score is at most the 5 to 10 questions drawn. |
| Recorder.InsertActivity | includes/class-activity-generator.php:331-347 | The insert succeeds exactly when the database accepts that INSERT, and it counts as one INSERT issued. The tables grow by exactly the inserted row, for the student, under a fresh id. |
| Recorder.WriteCourseMeta | includes/class-activity-generator.php:156-158 | The meta table becomes the old table plus the accepted ones of exactly two rows: `steps_total` 10, then `steps_completed` 10 when completed and a draw in 1 to 9 otherwise. |
| Recorder.WriteCourseRows | includes/class-activity-generator.php:133-158 | The entry is zeroed exactly when the row INSERT is refused, and then no meta is written. Otherwise the entry names its one `course` row, holds the drawn times and status, and the meta table grows by exactly the accepted course meta rows of that id. |
| Recorder.GenerateCourseActivity | includes/class-activity-generator.php:113-165 | The entry is zeroed exactly when its row INSERT is refused; with every INSERT accepted it is backed by a valid course row. When recorded, the meta table grows by exactly the accepted course meta rows, with `steps_completed` 10 when completed and 1 to 9 otherwise. Progress and markers change only when the row went in, and markers only when it completed. The student's user meta only grows (`UserMetaGrew`); every other user's is unchanged. |
| Recorder.WriteLessonMeta | includes/class-activity-generator.php:278-280 | The meta table becomes the old table plus the accepted ones of exactly `steps_total` 1 and `steps_completed` equal to the status. |
| Recorder.WriteLessonRows | includes/class-activity-generator.php:254-280 | The entry is zeroed exactly when the row INSERT is refused, and then no meta is written. Otherwise it names its one `lesson` row inside the course, and the meta table grows by exactly its accepted lesson meta rows. |
| Recorder.GenerateLessonActivity | includes/class-activity-generator.php:234-289 | The entry is zeroed exactly when its row INSERT is refused; otherwise it is backed by a valid `lesson` row inside the course. When recorded, the meta table grows by exactly the accepted lesson meta rows. Only a recorded completion marks the lesson complete, in `_sfwd-lesson_completed` and `completed_<course>_<lesson>`. The student's user meta only grows (`UserMetaGrew`); every other user's is unchanged. |
| Recorder.GenerateTopicActivity | includes/class-activity-generator.php:294-297 | A topic follows the lesson rule: the entry is zeroed exactly when the INSERT is refused, otherwise it is a row of type `lesson` whose post is the topic, inside the course. When recorded, the meta table grows by exactly the accepted lesson meta rows. A completed topic is marked in `_sfwd-lesson_completed` and `completed_<course>_<topic>` like a lesson. The student's user meta only grows (`UserMetaGrew`); every other user's is unchanged. |
| Recorder.WriteQuizMeta | includes/class-activity-generator.php:356-362 | The meta table becomes the old table plus the accepted ones of exactly the six quiz rows: percentage, the question count, the score, the pass flag, 10 points per correct answer and 10 per question. |
| Recorder.WriteQuizRows | includes/class-activity-generator.php:330-362 | The entry is zeroed exactly when the row INSERT is refused, and then no meta is written. Otherwise it names its one `quiz` row with status 1, and the meta table grows by exactly its accepted quiz meta rows; `count` is the question count. |
| Recorder.GenerateQuizActivity | includes/class-activity-generator.php:302-369 | The entry is zeroed exactly when its row INSERT is refused; otherwise it is backed by a valid quiz row inside the course, with a score at most the 5 to 10 questions drawn. When recorded, the meta table grows by exactly the accepted quiz meta rows for the question count drawn. The quiz history grows only when the row went in. The student's user meta only grows (`UserMetaGrew`); every other user's is unchanged. |
| Recorder.VisitQuiz | includes/class-activity-generator.php:189-193 | The quiz entry is stored under the quiz id and its ids are appended. No other entry changes. The student's user meta only grows (`UserMetaGrew`); every other user's is unchanged. |
| Recorder.RecordedFull | includes/class-activity-generator.php:133-158 | When the database accepts every INSERT, no entry of a recorded activity is zeroed. |
| Recorder.GenerateQuizzes | includes/class-activity-generator.php:187-193 | After a step's quiz loop the quiz keys are exactly the earlier keys plus the step's quizzes. Every new row is listed. The student's user meta only grows (`UserMetaGrew`); every other user's is unchanged. |
| Recorder.GenerateCourseQuizzes | includes/class-activity-generator.php:219-228 | Course-level quizzes already visited keep their entries; the rest are added. If every one was already visited, nothing changes. The student's user meta only grows (`UserMetaGrew`); every other user's is unchanged. |
| Recorder.VisitCourseQuiz | includes/class-activity-generator.php:221-227 | A course-level quiz the student already has an entry for is skipped and nothing changes; otherwise it is generated. Either way it has an entry afterwards. The student's user meta only grows (`UserMetaGrew`); every other user's is unchanged. |
| Recorder.VisitTopic | includes/class-activity-generator.php:199-214 | Adds exactly the topic and that topic's quizzes; the topic and each of its quizzes then have an entry. The student's user meta only grows (`UserMetaGrew`); every other user's is unchanged. |
| Recorder.VisitLessonNode | includes/class-activity-generator.php:181-193 | Adds exactly the lesson and that lesson's quizzes; the lesson and each of its quizzes then have an entry. The student's user meta only grows (`UserMetaGrew`); every other user's is unchanged. |
| Recorder.VisitTopics | includes/class-activity-generator.php:196-216 | Every topic of the list and every quiz of each topic has an entry afterwards, and no earlier key is lost. The student's user meta only grows (`UserMetaGrew`); every other user's is unchanged. |
| Recorder.VisitLesson | includes/class-activity-generator.php:178-217 | Completes exactly when the topic query for the lesson returns. Then the lesson, its quizzes, every topic of its list and their quizzes all have entries. No earlier key is lost. The student's user meta only grows (`UserMetaGrew`); every other user's is unchanged. |
| Recorder.VisitLessons | includes/class-activity-generator.php:178-217 | Completes exactly when every lesson's topic query returns. Then every lesson is covered as in `VisitLesson`, and no earlier key is lost. The student's user meta only grows (`UserMetaGrew`); every other user's is unchanged. |
| Recorder.GenerateCourseContentActivity | includes/class-activity-generator.php:170-229 | Completes exactly when every content query of the course returns. With no lessons it returns at once and changes nothing. On completion every lesson, topic, step quiz and, when there are lessons, every course-level quiz has an entry. The student's user meta only grows (`UserMetaGrew`); every other user's is unchanged. |
| Recorder.RecordCourse | includes/class-activity-generator.php:98-100 | The course entry is stored under the course id and its ids are appended. No other entry changes. The student's user meta only grows (`UserMetaGrew`); every other user's is unchanged. |
| Recorder.VisitCourse | includes/class-activity-generator.php:98-105 | Adds the course entry, then the course content. It completes exactly when the course's queries return, and then the content is covered as above. The student's user meta only grows (`UserMetaGrew`); every other user's is unchanged. |
| Recorder.GenerateStudentActivity | includes/class-activity-generator.php:88-108 | The student's id list is exactly the rows added for the student. Every entry is backed by its row or is zeroed, and zeroing happens only when some INSERT is refused. It completes exactly when every course's queries return, and then holds one entry per course with all its content covered. The student's user meta only grows (`UserMetaGrew`); every other user's is unchanged. |
| Recorder.CoursesCoveredReach | includes/class-activity-generator.php:88-108 | A student whose every course is covered had every content query return, and has an entry for every course. |
| Generator.VisitStudent | includes/class-activity-generator.php:54-56 | One student's activity, added on top of the earlier students': every listed id is still a new row of its student, every activity stays recorded, with distinct students nothing unlisted is added, and only the listed students' user meta grows. |
| Generator.GenerateBatch | includes/class-activity-generator.php:52-57 | One activity per student, every listed id inserted during the batch for that student, every entry backed by its row or zeroed (only possible when some INSERT is refused), every course's content covered. The listed students' user meta only grows and every other user's is unchanged, even when the loop stops early. With distinct students nothing unlisted is inserted. It completes exactly when no query raises. |
| Generator.Generate | includes/class-activity-generator.php:20-83 | Returns `no_students`, then `no_courses`, exactly when those inputs are empty. Any failure leaves the tables, user meta and ledger as they were. Success stores the ledger of the batch with the facts above; when the database accepts every INSERT, no ledger entry is zeroed. On success the listed students' user meta only grows and every other user keeps all four user-meta values. |
| Ledger.ExportName | includes/class-activity-generator.php:568-569 | The file name is the prefix, the timestamp and `.json`. |
| Ledger.ExportNameInjective | includes/class-activity-generator.php:568-570 | Exports at different timestamps never share a file. |
| Ledger.Export | includes/class-activity-generator.php:551-585 | `no_data` exactly when no ledger is stored, and then no file is touched. The exports directory and its `index.php` are created when missing. A failed write gives `export_failed`, and a stored ledger with a successful write always succeeds. Success writes the ledger, unchanged, to the reported path and URL. An existing `index.php` is kept, the export file changes only on a successful write, and no other file is added or changed. |
| Ledger.KeepLegacy | includes/class-activity-generator.php:642-646 | Removes exactly the keys starting with `completed_`, `course_completed_` or `completed_certificate_`, including every completion and certificate marker. The rest are kept unchanged. |
| Ledger.DropAttempts | includes/class-activity-generator.php:633-638 | Keeps exactly the attempts at quizzes outside the set. |
| Ledger.DropNothing | includes/class-activity-generator.php:633-638 | Filtering by an empty quiz set keeps the history unchanged. |
| Ledger.FilterQuizHistory | includes/class-activity-generator.php:631-640 | Cleanup leaves `_sfwd-quizzes` unchanged. |
| Ledger.DeleteListed | includes/class-activity-generator.php:608-625 | Deletes exactly one student's listed rows and meta rows and counts both. An empty list deletes nothing. |
| Ledger.CleanUserMeta | includes/class-activity-generator.php:627-646 | Removes the student's course progress and lesson completion, keeps the quiz history, and drops the student's completion markers. |
| Ledger.DeleteStudentRows | includes/class-activity-generator.php:607-625 | One loop step: the deleted ids grow by the student's ids. |
| Ledger.CleanStudentMeta | includes/class-activity-generator.php:627-646 | One loop step: the cleaned user meta grows by the student. |
| Ledger.CleanStudents | includes/class-activity-generator.php:607-647 | After the loop, exactly the ledger's ids are gone from both tables, and exactly its students' user meta is cleaned. The counts are the rows removed. |
| Ledger.Cleanup | includes/class-activity-generator.php:590-666 | `no_data` exactly when there is no ledger, changing nothing. Otherwise the result states the new contents of every table, every user-meta map and the ledger option, and the counts. |
| Ledger.CleanupUndoesGenerate | includes/class-activity-generator.php:607-625 | Deleting a batch's listed ids from the tables the batch produced gives back the tables from before the batch. |
| Ledger.GenerateThenCleanup | includes/class-activity-generator.php:590-650 | A successful generate for distinct students followed by cleanup restores both activity tables and clears the ledger. |
| Ledger.CleanupThenExport | includes/class-activity-generator.php:593-597 | After a cleanup, a second cleanup and an export both answer `no_data`. |
| Simulator.HoldsNone | learndash-activity-simulator.php:152-160 | True exactly when the user holds none of the listed roles. |
| Simulator.StudentRule | learndash-activity-simulator.php:147-164 | A user with no user data is excluded. A user is kept exactly when they hold none of `administrator`, `editor`, `author` and `contributor`. A user with no role at all is kept. |
| Simulator.FilterStudents | learndash-activity-simulator.php:146-164 | A user is in the student list exactly when they are among all users and pass the rule. |
| Simulator.FilterKeepsOrder | learndash-activity-simulator.php:139-147 | Filtering keeps the `display_name` order of the user query. |
| Simulator.FilterIsSubsequence | learndash-activity-simulator.php:146-164 | The student list is a subsequence of the user query: each student is the user at a strictly increasing position, so ties and repeated rows keep the query's order. |
| Simulator.FilterAppend | learndash-activity-simulator.php:146-164 | Filtering a concatenation gives the filtered parts, in order. |
| Simulator.AdminPage.GetAvailableContent | learndash-activity-simulator.php:113-165 | The page keeps the published courses, lessons and quizzes and the filtered students. Every student has user data. |
| Simulator.Respond | learndash-activity-simulator.php:177-181 | An error becomes a JSON error, and a result becomes a JSON success carrying it. |
| Simulator.GenerateActivity | learndash-activity-simulator.php:220-224 | The envelope forwards `generate` with its whole contract. `no_students`, `no_courses` and the draw error come exactly when `generate` returns them, and success comes exactly when every query returns. A success envelope carries the stored ledger: one activity per listed student, every listed id a new row of its student, every entry recorded, every course's content covered, nothing unlisted added when the students are distinct, and the listed students' user meta only grown. An error envelope leaves every table, all user meta and the ledger unchanged. |
| Simulator.ExportActivity | learndash-activity-simulator.php:229-233 | The envelope forwards `export` with its whole contract. `no_data` comes exactly when no ledger is stored, and then no directory or file changes. `export_failed` comes exactly when the write fails, and success exactly when there is a ledger and the write succeeds. Success reports the file name, path and URL and writes the ledger to that path. Only `index.php` (for a new directory) and the export file may be added or changed; every other file is kept. |
| Simulator.CleanupActivity | learndash-activity-simulator.php:238-242 | The posted data is ignored and the envelope forwards `cleanup` with its whole contract. The answer is `no_data` exactly when there is no ledger, and then nothing changes. Otherwise the ledger's rows and meta rows are deleted with their counts, the listed students' progress and lesson completion are removed, their markers are dropped, the quiz history is kept, and the ledger is cleared. |

## Left out

- Messages, translations (`__`, `_n`) and the JSON encoding are not modelled. Errors are their
  `WP_Error` codes, and a file holds the ledger value itself.
- Nonce and permission checks of the AJAX handlers are not modelled. The envelope is modelled only
  for a caller allowed to act.
- File-system failures of `wp_mkdir_p` and of writing `index.php` are not modelled. The export
  write's result is an input (`written`).
- The clock and `date()` are inputs. The source reads the clock again for each student
  (includes/class-activity-generator.php:94) and for each marker (`time()` at lines 413, 439, 444
  and 465). The model uses one `Clock` value for the whole batch, so it does not capture a batch
  whose students or markers see different times. `mt_rand` is a seeded stream of which only the draw's range is
  promised.
- The lesson and topic lists (`learndash_get_course_lessons_list`, `learndash_topic_dots`) and the
  `get_posts` lookups are an input map, since they are foreign code.
  - A lesson or topic query that raises is a missing key.
  - `get_users` returns its rows already ordered; that order is an input.
- Outcomes.CorrectAnswers: PHP's floating-point `round` is replaced by integer round-half-up. The
  two agree on every percentage in [0, 100] except where floating-point error moves an exact half.
- Outcomes.WindowOf: `strtotime("-N days")` is taken as exactly N × 86400 seconds. Daylight-saving
  shifts and negative N (which moves the start into the future) are not modelled.
  - A window shorter than one day makes the first `mt_rand` raise a `ValueError`. That error is
    not an `Exception`, so the `catch` does not take it. The model reports `DrawRange` and changes
    nothing, since no write precedes the first draw. This is PHP 8.0 and later. Under PHP 7,
    `mt_rand` with `min > max` returns `false` with a warning instead, and the batch goes on with
    that value; that behaviour is not modelled.
- Ledger.KeepLegacy: the SQL `LIKE` patterns are modelled as plain prefix tests. In `LIKE`, `_`
  matches any single character and the comparison ignores case, so keys such as `completedX...`
  also match in the database.
- Ledger.Cleanup: the `cleanup_failed` path is not modelled. Nothing in the modelled cleanup
  raises.
  - The students are visited in an unspecified order. The result does not depend on it.
- Ledger.Cleanup: a student listed twice in `generate` keeps only the ledger entry of their last
  pass. The rows of the earlier pass are then not listed, and cleanup leaves them in place. For
  that reason the round-trip lemmas require distinct students.
- Simulator.FilterStudents: `array_filter` keeps the original array keys. The student list is
  modelled as a sequence, and the page only iterates it.
- The AUTO_INCREMENT counter and the number of INSERTs issued are not rolled back by `ROLLBACK`,
  as in MySQL.
- Storage.Database.Valid: the clause that every meta row's activity id is below the
  AUTO_INCREMENT counter is a model invariant, not a MySQL constraint. The plugin's tables have no
  foreign key, so a meta row written by other code for an id not yet issued is not modelled. The round-trip lemmas
  (`Ledger.CleanupUndoesGenerate`, `Ledger.GenerateThenCleanup`) rely on that invariant.
- Aggregates.UpdateCourseProgress: `function_exists('learndash_get_course_certificate_link')`
  (includes/class-activity-generator.php:416) is taken as true, as it is whenever LearnDash is
  active. With it false, no certificate marker would be written.
- Simulator.GenerateActivity: `JsonError(DrawRange)` stands for a request that ends in a fatal
  error with no JSON envelope at all. The `ValueError` of a window shorter than a day escapes
  `generate_activity`, and `ajax_generate_activity` (learndash-activity-simulator.php:174-181)
  has no `catch`, so neither `wp_send_json_error` nor `wp_send_json_success` is reached.
- Recorder.WriteCourseMeta: the source draws the `steps_completed` value between the two meta
  INSERTs, the model draws it before both. The draws and the tables are independent, so the
  resulting state is the same.
