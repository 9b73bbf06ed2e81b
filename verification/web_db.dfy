/** The web application's two tables (web/db/config.ts) and the row
    operations the actions perform on them. A table is the sequence of its
    rows in insertion order; an auto-increment key is drawn from a counter
    that only grows. Dates are instants supplied by the caller's clock. */
module WebDb {
  import opened Base

  type Instant = nat

  /** A `Submission` row: the required coordinates, image URL and creation
      time, and the processing time and grain size set later. */
  datatype Submission = Submission(
    id: nat,
    latitude: real,
    longitude: real,
    image: string,
    createdAt: Instant,
    processedAt: Option<Instant>,
    size: Option<real>)

  /** A `Processed` row: the scale as text and the optional distribution
      columns; there is no D84 column. */
  datatype Processed = Processed(
    id: nat,
    submissionId: nat,
    scale: string,
    d10: Option<real>,
    d16: Option<real>,
    d25: Option<real>,
    d50: Option<real>,
    d65: Option<real>,
    d75: Option<real>,
    d90: Option<real>,
    d50mean: Option<real>)

  datatype Db = Db(
    submissions: seq<Submission>,
    processed: seq<Processed>,
    nextSubmissionId: nat,
    nextProcessedId: nat)

  /** The empty database: SQLite's auto-increment keys start at 1. */
  const Empty: Db := Db([], [], 1, 1)

  predicate SubmissionExists(db: Db, id: nat) {
    exists i :: 0 <= i < |db.submissions| && db.submissions[i].id == id
  }

  predicate ProcessedExistsFor(db: Db, submissionId: nat) {
    exists i :: 0 <= i < |db.processed| && db.processed[i].submissionId == submissionId
  }

  /** The table constraints: primary keys unique and below their counters,
      `Processed.submissionId` unique and referring to a Submission. */
  predicate Valid(db: Db) {
    && 1 <= db.nextSubmissionId && 1 <= db.nextProcessedId
    && (forall i :: 0 <= i < |db.submissions| ==> 1 <= db.submissions[i].id < db.nextSubmissionId)
    && (forall i, j :: 0 <= i < j < |db.submissions| ==> db.submissions[i].id != db.submissions[j].id)
    && (forall i :: 0 <= i < |db.processed| ==> 1 <= db.processed[i].id < db.nextProcessedId)
    && (forall i, j :: 0 <= i < j < |db.processed| ==> db.processed[i].id != db.processed[j].id)
    && (forall i, j :: 0 <= i < j < |db.processed| ==> db.processed[i].submissionId != db.processed[j].submissionId)
    && (forall i :: 0 <= i < |db.processed| ==> SubmissionExists(db, db.processed[i].submissionId))
  }

  lemma EmptyIsValid()
    ensures Valid(Empty)
  {
  }

  /** The position of the first element satisfying `p`, if any. */
  function FindFirst<T>(s: seq<T>, p: T -> bool): (r: Option<nat>)
    ensures r.None? <==> forall i :: 0 <= i < |s| ==> !p(s[i])
    ensures r.Some? ==> r.value < |s| && p(s[r.value]) && forall j :: 0 <= j < r.value ==> !p(s[j])
  {
    if |s| == 0 then None
    else if p(s[0]) then Some(0)
    else
      match FindFirst(s[1..], p)
      case None => None
      case Some(k) => Some(k + 1)
  }

  /** `db.insert(Submission).values([...]).returning()`: appends a row with
      the next key and no processing data, and returns it. */
  function InsertSubmission(db: Db, latitude: real, longitude: real, image: string, now: Instant)
    : (r: (Db, Submission))
    requires Valid(db)
    ensures Valid(r.0)
    ensures r.1 == Submission(db.nextSubmissionId, latitude, longitude, image, now, None, None)
    ensures !SubmissionExists(db, r.1.id)
    ensures r.0.submissions == db.submissions + [r.1]
    ensures r.0.processed == db.processed && r.0.nextProcessedId == db.nextProcessedId
  {
    var row := Submission(db.nextSubmissionId, latitude, longitude, image, now, None, None);
    var db' := db.(submissions := db.submissions + [row], nextSubmissionId := db.nextSubmissionId + 1);
    assert forall i :: 0 <= i < |db.processed| ==> SubmissionExists(db', db.processed[i].submissionId) by {
      forall i | 0 <= i < |db.processed|
        ensures SubmissionExists(db', db.processed[i].submissionId)
      {
        assert SubmissionExists(db, db.processed[i].submissionId);
        var k :| 0 <= k < |db.submissions| && db.submissions[k].id == db.processed[i].submissionId;
        assert db'.submissions[k] == db.submissions[k];
      }
    }
    (db', row)
  }

  /** `db.insert(Processed).values([...])`: the unique and reference
      constraints reject a row for a missing Submission or for one that
      already has a Processed row; otherwise the row is appended with the
      next key. */
  function InsertProcessed(db: Db, row: Processed): (r: Option<Db>)
    requires Valid(db)
    ensures r.None? <==> !SubmissionExists(db, row.submissionId) || ProcessedExistsFor(db, row.submissionId)
    ensures r.Some? ==> Valid(r.value)
    ensures r.Some? ==>
      && r.value.processed == db.processed + [row.(id := db.nextProcessedId)]
      && r.value.submissions == db.submissions
      && r.value.nextSubmissionId == db.nextSubmissionId
  {
    if !SubmissionExists(db, row.submissionId) || ProcessedExistsFor(db, row.submissionId) then None
    else
      var stored := row.(id := db.nextProcessedId);
      Some(db.(processed := db.processed + [stored], nextProcessedId := db.nextProcessedId + 1))
  }

  /** `db.update(Submission).set({processedAt, size}).where(eq(id, …))`:
      every row with that id, and no other, gets the new values. */
  function MarkProcessed(rows: seq<Submission>, id: nat, at: Instant, size: real): (r: seq<Submission>)
    ensures |r| == |rows|
    ensures forall i :: 0 <= i < |rows| ==>
      r[i] == if rows[i].id == id then rows[i].(processedAt := Some(at), size := Some(size)) else rows[i]
  {
    if |rows| == 0 then []
    else
      var head := if rows[0].id == id then rows[0].(processedAt := Some(at), size := Some(size)) else rows[0];
      [head] + MarkProcessed(rows[1..], id, at, size)
  }

  /** Marking rows processed keeps every key, so it keeps the constraints. */
  lemma MarkProcessedKeepsValid(db: Db, id: nat, at: Instant, size: real)
    requires Valid(db)
    ensures Valid(db.(submissions := MarkProcessed(db.submissions, id, at, size)))
  {
    var db' := db.(submissions := MarkProcessed(db.submissions, id, at, size));
    forall i | 0 <= i < |db.processed|
      ensures SubmissionExists(db', db.processed[i].submissionId)
    {
      var k :| 0 <= k < |db.submissions| && db.submissions[k].id == db.processed[i].submissionId;
      assert db'.submissions[k].id == db.submissions[k].id;
    }
  }

  /** With unique keys, the first row with a key is the only one. */
  lemma FirstIsOnly(db: Db, id: nat, k: nat)
    requires Valid(db)
    requires k < |db.submissions| && db.submissions[k].id == id
    ensures forall j :: 0 <= j < |db.submissions| && db.submissions[j].id == id ==> j == k
  {
  }
}
