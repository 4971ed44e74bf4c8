// The WordPress database as the simulator sees it: the LearnDash activity
// tables, the user-meta values the simulator touches and the option slot that
// holds the ledger. SQL is replaced by operations on maps and sequences.

module Storage {
  import opened Wrappers
  import opened Records

  /** A snapshot of the two activity tables and the AUTO_INCREMENT counter. */
  datatype Tables = Tables(rows: map<int, ActivityRow>, meta: seq<MetaRow>, nextId: int)

  /** What `START TRANSACTION` marks and `ROLLBACK` returns to: both activity
      tables and the user meta. The AUTO_INCREMENT counter is not part of it. */
  datatype Savepoint = Savepoint(
    rows: map<int, ActivityRow>,
    meta: seq<MetaRow>,
    courseProgress: map<int, map<int, Progress>>,
    lessonCompleted: map<int, map<int, map<int, int>>>,
    quizHistory: map<int, seq<QuizAttempt>>,
    legacy: map<int, map<LegacyKey, int>>)

  class Database {
    /** `learndash_user_activity`, keyed by `activity_id`. */
    var rows: map<int, ActivityRow>
    /** `learndash_user_activity_meta`, in insertion order. */
    var meta: seq<MetaRow>
    /** The next AUTO_INCREMENT value of `learndash_user_activity`. */
    var nextId: int
    /** How many INSERT statements have been issued so far. */
    var attempts: nat
    /** Whether the n-th INSERT succeeds; `$wpdb->insert` returns false otherwise. */
    const accepts: nat -> bool

    /** `_sfwd-course_progress`, per user. */
    var courseProgress: map<int, map<int, Progress>>
    /** `_sfwd-lesson_completed`, per user: course to step to completion time. */
    var lessonCompleted: map<int, map<int, map<int, int>>>
    /** `_sfwd-quizzes`, per user. */
    var quizHistory: map<int, seq<QuizAttempt>>
    /** The single-valued user-meta keys, per user. */
    var legacy: map<int, map<LegacyKey, int>>

    /** The option `las_simulation_data`; None when it is not set. */
    var ledger: Option<Batch>

    /** Activity ids are positive and below the AUTO_INCREMENT counter, and
        every meta row refers to an id already handed out. */
    ghost predicate Valid()
      reads this`rows, this`meta, this`nextId
    {
      && 0 < nextId
      && (forall k :: k in rows ==> 0 < k < nextId)
      && (forall j :: 0 <= j < |meta| ==> meta[j].activityId < nextId)
    }

    /** Every INSERT this connection issues succeeds. */
    ghost predicate AlwaysAccepts()
    {
      forall n: nat :: accepts(n)
    }

    /** The current contents of the activity tables. */
    function Snapshot(): Tables
      reads this`rows, this`meta, this`nextId
    {
      Tables(rows, meta, nextId)
    }

    /** The state `START TRANSACTION` marks. */
    function Mark(): Savepoint
      reads this`rows, this`meta, this`courseProgress, this`lessonCompleted, this`quizHistory, this`legacy
    {
      Savepoint(rows, meta, courseProgress, lessonCompleted, quizHistory, legacy)
    }

    constructor (accepts: nat -> bool)
      ensures Valid()
      ensures this.accepts == accepts && attempts == 0 && nextId == 1
      ensures rows == map[] && meta == [] && ledger == None
      ensures courseProgress == map[] && lessonCompleted == map[] && quizHistory == map[] && legacy == map[]
    {
      this.accepts := accepts;
      rows, meta, nextId, attempts := map[], [], 1, 0;
      courseProgress, lessonCompleted, quizHistory, legacy := map[], map[], map[], map[];
      ledger := None;
    }

    /** `$wpdb->insert` into `learndash_user_activity`; `ok` is its result and
        `id` is `$wpdb->insert_id` when it succeeded. */
    method InsertRow(row: ActivityRow) returns (ok: bool, id: int)
      requires Valid()
      modifies this`rows, this`nextId, this`attempts
      ensures Valid()
      ensures attempts == old(attempts) + 1
      ensures ok == accepts(old(attempts))
      ensures ok ==> id == old(nextId) && rows == old(rows)[id := row] && nextId == old(nextId) + 1
      ensures !ok ==> rows == old(rows) && nextId == old(nextId)
    {
      ok := accepts(attempts);
      attempts := attempts + 1;
      id := 0;
      if ok {
        id := nextId;
        rows := rows[id := row];
        nextId := nextId + 1;
      }
    }

    /** `$wpdb->insert` into `learndash_user_activity_meta`. */
    method InsertMeta(m: MetaRow) returns (ok: bool)
      requires Valid() && m.activityId < nextId
      modifies this`meta, this`attempts
      ensures Valid()
      ensures attempts == old(attempts) + 1
      ensures ok == accepts(old(attempts))
      ensures meta == if ok then old(meta) + [m] else old(meta)
    {
      ok := accepts(attempts);
      attempts := attempts + 1;
      if ok {
        meta := meta + [m];
      }
    }

    /** Several `$wpdb->insert` calls into `learndash_user_activity_meta` in
        order, each result ignored: the rows that went in are appended in order. */
    method InsertMetaRows(ms: seq<MetaRow>)
      requires Valid() && forall j :: 0 <= j < |ms| ==> ms[j].activityId < nextId
      modifies this`meta, this`attempts
      decreases |ms|
      ensures Valid()
      ensures attempts == old(attempts) + |ms|
      ensures meta == old(meta) + Accepted(ms, accepts, old(attempts))
    {
      if ms != [] {
        var ok := InsertMeta(ms[0]);
        ghost var mid := meta;
        InsertMetaRows(ms[1..]);
        assert meta == old(meta) + ((if ok then [ms[0]] else []) + Accepted(ms[1..], accepts, old(attempts) + 1));
      }
    }

    /** `ROLLBACK` to a mark taken earlier in this connection: every table
        returns to the marked state, while ids handed out since stay used. */
    method Rollback(sp: Savepoint)
      requires Valid()
      requires (forall k :: k in sp.rows ==> 0 < k < nextId) && (forall j :: 0 <= j < |sp.meta| ==> sp.meta[j].activityId < nextId)
      modifies this`rows, this`meta, this`courseProgress, this`lessonCompleted, this`quizHistory, this`legacy
      ensures Valid()
      ensures Mark() == sp
    {
      rows, meta := sp.rows, sp.meta;
      courseProgress, lessonCompleted, quizHistory, legacy := sp.courseProgress, sp.lessonCompleted, sp.quizHistory, sp.legacy;
    }

    /** `DELETE FROM learndash_user_activity WHERE activity_id IN (ids)`;
        the count is the number of rows the statement removed. */
    method DeleteRows(ids: set<int>) returns (count: nat)
      modifies this`rows
      ensures rows == old(rows) - ids
      ensures count == |old(rows)| - |rows|
    {
      count := |rows.Keys * ids|;
      SplitByKeys(rows, ids);
      rows := rows - ids;
    }

    /** `DELETE FROM learndash_user_activity_meta WHERE activity_id IN (ids)`;
        the count is the number of meta rows the statement removed. */
    method DeleteMeta(ids: set<int>) returns (count: nat)
      modifies this`meta
      ensures meta == KeepMeta(old(meta), ids)
      ensures count == |old(meta)| - |meta|
    {
      count := CountMeta(meta, ids);
      KeepAndCount(meta, ids);
      meta := KeepMeta(meta, ids);
    }
  }

  /** The rows of `ms` whose INSERT is accepted, in order, when the first is
      the `n`-th INSERT of the connection. */
  function Accepted(ms: seq<MetaRow>, accepts: nat -> bool, n: nat): (r: seq<MetaRow>)
    ensures |r| <= |ms|
    ensures forall m :: m in r ==> m in ms
  {
    if ms == [] then []
    else (if accepts(n) then [ms[0]] else []) + Accepted(ms[1..], accepts, n + 1)
  }

  /** The rows appended to a table are rows of the list they were drawn from. */
  lemma AppendedIn(m0: seq<MetaRow>, added: seq<MetaRow>, ms: seq<MetaRow>)
    requires forall m :: m in added ==> m in ms
    ensures forall j :: |m0| <= j < |m0 + added| ==> (m0 + added)[j] in ms
  {
    forall j | |m0| <= j < |m0 + added|
      ensures (m0 + added)[j] in ms
    {
      assert (m0 + added)[j] == added[j - |m0|];
    }
  }

  /** When every one of the INSERTs is accepted, every row goes in. */
  lemma {:induction false} AcceptedAll(ms: seq<MetaRow>, accepts: nat -> bool, n: nat)
    requires forall i: nat :: n <= i < n + |ms| ==> accepts(i)
    ensures Accepted(ms, accepts, n) == ms
  {
    if ms != [] {
      AcceptedAll(ms[1..], accepts, n + 1);
      assert accepts(n);
      assert [ms[0]] + ms[1..] == ms;
    }
  }

  /** When none of the INSERTs is accepted, no row goes in. */
  lemma {:induction false} AcceptedNone(ms: seq<MetaRow>, accepts: nat -> bool, n: nat)
    requires forall i: nat :: n <= i < n + |ms| ==> !accepts(i)
    ensures Accepted(ms, accepts, n) == []
  {
    if ms != [] {
      AcceptedNone(ms[1..], accepts, n + 1);
      assert !accepts(n);
    }
  }

  /** Deleting rows and meta rows keeps the tables consistent. */
  lemma DeletedValid(rows0: map<int, ActivityRow>, meta0: seq<MetaRow>, nextId: int, ids: set<int>)
    requires 0 < nextId && (forall k :: k in rows0 ==> 0 < k < nextId)
    requires forall j :: 0 <= j < |meta0| ==> meta0[j].activityId < nextId
    ensures forall k :: k in rows0 - ids ==> 0 < k < nextId
    ensures var meta := KeepMeta(meta0, ids); forall j :: 0 <= j < |meta| ==> meta[j].activityId < nextId
  {
    var meta := KeepMeta(meta0, ids);
    forall j | 0 <= j < |meta|
      ensures meta[j].activityId < nextId
    {
      assert meta[j] in meta0;
    }
  }

  /** The meta rows a `DELETE ... WHERE activity_id IN (ids)` leaves, in order. */
  function KeepMeta(m: seq<MetaRow>, ids: set<int>): (r: seq<MetaRow>)
    ensures |r| <= |m|
    ensures forall x :: x in r <==> x in m && x.activityId !in ids
  {
    if m == [] then []
    else (if m[0].activityId in ids then [] else [m[0]]) + KeepMeta(m[1..], ids)
  }

  /** The number of meta rows whose activity id is in `ids`. */
  function CountMeta(m: seq<MetaRow>, ids: set<int>): nat
  {
    if m == [] then 0
    else (if m[0].activityId in ids then 1 else 0) + CountMeta(m[1..], ids)
  }

  lemma {:induction false} KeepAndCount(m: seq<MetaRow>, ids: set<int>)
    ensures |KeepMeta(m, ids)| + CountMeta(m, ids) == |m|
  {
    if m != [] {
      KeepAndCount(m[1..], ids);
    }
  }

  /** Deleting a set of ids and then another deletes their union. */
  lemma {:induction false} KeepMetaTwice(m: seq<MetaRow>, a: set<int>, b: set<int>)
    ensures KeepMeta(KeepMeta(m, a), b) == KeepMeta(m, a + b)
  {
    if m != [] {
      KeepMetaTwice(m[1..], a, b);
      var rest := KeepMeta(m[1..], a);
      if m[0].activityId in a {
        assert KeepMeta(m, a) == [] + rest == rest;
      } else {
        assert KeepMeta(m, a) == [m[0]] + rest;
        assert ([m[0]] + rest)[1..] == rest;
      }
    }
  }

  /** A prefix of meta rows none of whose ids is deleted survives a delete unchanged. */
  lemma {:induction false} KeepMetaPrefix(m0: seq<MetaRow>, m1: seq<MetaRow>, ids: set<int>)
    requires forall j :: 0 <= j < |m0| ==> m0[j].activityId !in ids
    requires forall j :: 0 <= j < |m1| ==> m1[j].activityId in ids
    ensures KeepMeta(m0 + m1, ids) == m0
  {
    if m0 == [] {
      assert m0 + m1 == m1;
      DropAll(m1, ids);
    } else {
      KeepMetaPrefix(m0[1..], m1, ids);
      assert (m0 + m1)[1..] == m0[1..] + m1;
      assert [m0[0]] + m0[1..] == m0;
    }
  }

  lemma {:induction false} KeepAll(m: seq<MetaRow>)
    ensures KeepMeta(m, {}) == m
  {
    if m != [] {
      KeepAll(m[1..]);
      assert [m[0]] + m[1..] == m;
    }
  }

  lemma {:induction false} DropAll(m: seq<MetaRow>, ids: set<int>)
    requires forall j :: 0 <= j < |m| ==> m[j].activityId in ids
    ensures KeepMeta(m, ids) == []
  {
    if m != [] {
      DropAll(m[1..], ids);
    }
  }

  /** The keys of a map split into those deleted and those kept. */
  lemma SplitByKeys<K, V>(r: map<K, V>, ids: set<K>)
    ensures |r| == |r - ids| + |r.Keys * ids|
  {
    var kept := r.Keys - ids;
    var gone := r.Keys * ids;
    assert (r - ids).Keys == kept;
    assert r.Keys == kept + gone;
    assert kept !! gone;
    assert |r.Keys| == |kept| + |gone|;
  }
}
