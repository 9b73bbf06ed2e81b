/** The submission actions (web/src/actions/submission.ts): accept a photo
    with its coordinates, store the image with the image host, record the
    submission, and enqueue the job `id,url` for the worker; and the two
    read actions. The image host and the queue are opaque functions. */
module WebSubmission {
  import opened Base
  import opened WebDb
  import Text

  datatype ErrorCode = BadRequest | NotFound | InternalServerError

  /** An `ActionError` the handler throws on purpose, or an exception from a
      call it does not guard. */
  datatype ActionFailure = ActionError(code: ErrorCode, message: string) | Unguarded

  datatype ImageFile = ImageFile(mimeType: string, content: Bytes)

  datatype SubmissionInput = SubmissionInput(longitude: real, latitude: real, image: ImageFile)

  /** What the image host did: threw, or answered with a `secure_url` that
      may be missing (a missing answer counts as a missing URL). */
  datatype Upload = UploadThrew | Uploaded(secureUrl: Option<string>)

  type Uploader = Bytes -> Upload

  /** `enqueueMessage(text)`: `false` when sending throws. */
  type Enqueuer = string -> bool

  /** The side effects of one action besides the database. */
  datatype Effects = Effects(uploaded: Option<Bytes>, enqueued: Option<string>)

  datatype CreateOutcome = CreateOutcome(db: Db, effects: Effects, result: Result<Submission, ActionFailure>)

  const AcceptedTypes: seq<string> := ["image/jpeg", "image/jpg", "image/png"]

  const InvalidTypeMessage: string := "Invalid image type. Only JPEG and PNG are allowed."
  const UploadFailedMessage: string := "Image upload to cloudinary failed"
  const SubmissionNotFoundMessage: string := "Submission not found"

  /** JavaScript's truth test on `response.secure_url`. */
  predicate HasUrl(u: Upload) {
    u.Uploaded? && u.secureUrl.Some? && |u.secureUrl.value| > 0
  }

  /** The worker's job for a stored submission: `${id},${url}`. */
  function JobMessage(id: nat, url: string): (m: string)
    ensures var k := |Text.Decimal(id)|;
      && k < |m| && m[k] == ','
      && m[..k] == Text.Decimal(id) && ',' !in m[..k]
      && m[k + 1..] == url
  {
    Text.DecimalHasNoComma(id);
    Text.Decimal(id) + "," + url
  }

  /** `createSubmission`: an unaccepted MIME type is refused before
      anything else happens; a failed upload or one without a URL stores
      nothing; otherwise exactly one row is appended, carrying the URL and
      the coordinates with no processing data, and only then is its job
      enqueued. A failing enqueue leaves the row in place. */
  function CreateSubmission(db: Db, input: SubmissionInput, upload: Uploader, enqueue: Enqueuer, now: Instant)
    : (o: CreateOutcome)
    requires Valid(db)
    ensures Valid(o.db)
    ensures input.image.mimeType !in AcceptedTypes ==>
      o == CreateOutcome(db, Effects(None, None), Err(ActionError(BadRequest, InvalidTypeMessage)))
    ensures input.image.mimeType in AcceptedTypes ==> o.effects.uploaded == Some(input.image.content)
    ensures input.image.mimeType in AcceptedTypes && !HasUrl(upload(input.image.content)) ==>
      o == CreateOutcome(db, Effects(Some(input.image.content), None),
                         Err(ActionError(InternalServerError, UploadFailedMessage)))
    ensures input.image.mimeType in AcceptedTypes && HasUrl(upload(input.image.content)) ==>
      var url := upload(input.image.content).secureUrl.value;
      var row := Submission(db.nextSubmissionId, input.latitude, input.longitude, url, now, None, None);
      && o.db.submissions == db.submissions + [row]
      && o.db.processed == db.processed
      && o.effects.enqueued == Some(JobMessage(row.id, url))
      && o.result == (if enqueue(JobMessage(row.id, url)) then Ok(row) else Err(Unguarded))
  {
    if input.image.mimeType !in AcceptedTypes then
      CreateOutcome(db, Effects(None, None), Err(ActionError(BadRequest, InvalidTypeMessage)))
    else
      var uploaded := Effects(Some(input.image.content), None);
      var response := upload(input.image.content);
      if !HasUrl(response) then
        CreateOutcome(db, uploaded, Err(ActionError(InternalServerError, UploadFailedMessage)))
      else
        var url := response.secureUrl.value;
        var (db', row) := InsertSubmission(db, input.latitude, input.longitude, url, now);
        var message := JobMessage(row.id, url);
        var effects := uploaded.(enqueued := Some(message));
        if enqueue(message) then CreateOutcome(db', effects, Ok(row))
        else CreateOutcome(db', effects, Err(Unguarded))
  }

  /** Whatever happens, a submission never changes rows that were already
      there. */
  lemma CreateKeepsExistingRows(db: Db, input: SubmissionInput, upload: Uploader, enqueue: Enqueuer, now: Instant)
    requires Valid(db)
    ensures db.submissions <= CreateSubmission(db, input, upload, enqueue, now).db.submissions
    ensures CreateSubmission(db, input, upload, enqueue, now).db.processed == db.processed
  {
  }

  /** A job is enqueued only for a row that is in the database by then. */
  lemma EnqueuedOnlyAfterInsert(db: Db, input: SubmissionInput, upload: Uploader, enqueue: Enqueuer, now: Instant)
    requires Valid(db)
    requires CreateSubmission(db, input, upload, enqueue, now).effects.enqueued.Some?
    ensures var o := CreateSubmission(db, input, upload, enqueue, now);
      exists i :: 0 <= i < |o.db.submissions| && !SubmissionExists(db, o.db.submissions[i].id)
        && o.effects.enqueued.value == JobMessage(o.db.submissions[i].id, o.db.submissions[i].image)
  {
    var o := CreateSubmission(db, input, upload, enqueue, now);
    var i := |db.submissions|;
    assert o.db.submissions[i].id == db.nextSubmissionId;
  }

  /** `getSubmission`: the first row with the id, or NOT_FOUND. The id is a
      JSON number and matches only an equal key. */
  function GetSubmission(db: Db, id: real): (r: Result<Submission, ActionFailure>)
    ensures r.Err? <==> forall i :: 0 <= i < |db.submissions| ==> db.submissions[i].id as real != id
    ensures r.Err? ==> r.error == ActionError(NotFound, SubmissionNotFoundMessage)
    ensures r.Ok? ==> r.value.id as real == id
    ensures r.Ok? ==> exists k :: 0 <= k < |db.submissions| && db.submissions[k] == r.value
                                 && (forall j :: 0 <= j < k ==> db.submissions[j].id as real != id)
  {
    match FindFirst(db.submissions, (s: Submission) => s.id as real == id)
    case None => Err(ActionError(NotFound, SubmissionNotFoundMessage))
    case Some(k) => Ok(db.submissions[k])
  }

  /** `getAllSubmissions`: every row, in table order. */
  function GetAllSubmissions(db: Db): (rows: seq<Submission>)
    ensures |rows| == |db.submissions|
    ensures forall i :: 0 <= i < |rows| ==> rows[i] == db.submissions[i]
  {
    db.submissions
  }

  /** What `createSubmission` stored can be read back by its id. */
  lemma CreatedSubmissionReadable(db: Db, input: SubmissionInput, upload: Uploader, enqueue: Enqueuer, now: Instant)
    requires Valid(db)
    requires input.image.mimeType in AcceptedTypes && HasUrl(upload(input.image.content))
    ensures var o := CreateSubmission(db, input, upload, enqueue, now);
      GetSubmission(o.db, db.nextSubmissionId as real)
        == Ok(Submission(db.nextSubmissionId, input.latitude, input.longitude,
                         upload(input.image.content).secureUrl.value, now, None, None))
  {
    var o := CreateSubmission(db, input, upload, enqueue, now);
    var k := |db.submissions|;
    assert o.db.submissions[k].id == db.nextSubmissionId;
    FirstIsOnly(o.db, db.nextSubmissionId, k);
  }

  /** A successful submission is the last row the listing returns, after
      every row that was there before. */
  lemma CreatedSubmissionListed(db: Db, input: SubmissionInput, upload: Uploader, enqueue: Enqueuer, now: Instant)
    requires Valid(db)
    requires CreateSubmission(db, input, upload, enqueue, now).result.Ok?
    ensures var rows := GetAllSubmissions(CreateSubmission(db, input, upload, enqueue, now).db);
      && |rows| == |db.submissions| + 1
      && rows[..|db.submissions|] == GetAllSubmissions(db)
      && rows[|db.submissions|] == CreateSubmission(db, input, upload, enqueue, now).result.value
  {
  }
}
