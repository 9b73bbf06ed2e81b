/** The processed-result actions (web/src/actions/processed.ts): the
    worker's results are validated against the input schema, stored as the
    submission's single Processed row, and the submission is stamped with
    the processing time and grain size; and the read action. */
module WebProcessed {
  import opened Base
  import opened WebDb
  import opened WebSubmission

  /** A form field after coercion: a number, or text that is not one. */
  datatype FieldValue = Num(n: real) | Text(s: string)

  type Form = map<string, FieldValue>

  /** The validated input of `createProcessed`. */
  datatype ProcessedInput = ProcessedInput(
    id: real,
    scale: string,
    size: real,
    d10: Option<real>,
    d16: Option<real>,
    d25: Option<real>,
    d50: Option<real>,
    d65: Option<real>,
    d75: Option<real>,
    d90: real,
    d50mean: real)

  function Number(form: Form, key: string): (r: Option<real>)
    ensures r.Some? <==> key in form && form[key].Num?
    ensures r.Some? ==> r.value == form[key].n
  {
    if key in form && form[key].Num? then Some(form[key].n) else None
  }

  /** An optional number is fine when absent and when a number. */
  predicate OptionalOk(form: Form, key: string) {
    key !in form || form[key].Num?
  }

  /** The input schema: id, size, D90 and D50mean must be numbers and scale
      text; D10 to D75 may be left out but, when present, must be numbers.
      Any other form is refused with BAD_REQUEST before the handler runs. */
  function ParseProcessedInput(form: Form): (r: Option<ProcessedInput>)
    ensures r.Some? <==>
      && Number(form, "id").Some? && Number(form, "size").Some?
      && Number(form, "D90").Some? && Number(form, "D50mean").Some?
      && "scale" in form && form["scale"].Text?
      && OptionalOk(form, "D10") && OptionalOk(form, "D16") && OptionalOk(form, "D25")
      && OptionalOk(form, "D50") && OptionalOk(form, "D65") && OptionalOk(form, "D75")
    ensures r.Some? ==>
      && Some(r.value.id) == Number(form, "id")
      && Some(r.value.size) == Number(form, "size")
      && Some(r.value.d90) == Number(form, "D90")
      && Some(r.value.d50mean) == Number(form, "D50mean")
      && r.value.scale == form["scale"].s
      && r.value.d10 == Number(form, "D10") && r.value.d16 == Number(form, "D16")
      && r.value.d25 == Number(form, "D25") && r.value.d50 == Number(form, "D50")
      && r.value.d65 == Number(form, "D65") && r.value.d75 == Number(form, "D75")
  {
    if Number(form, "id").None? || Number(form, "size").None?
      || Number(form, "D90").None? || Number(form, "D50mean").None?
      || !("scale" in form && form["scale"].Text?)
      || !OptionalOk(form, "D10") || !OptionalOk(form, "D16") || !OptionalOk(form, "D25")
      || !OptionalOk(form, "D50") || !OptionalOk(form, "D65") || !OptionalOk(form, "D75")
    then None
    else
      Some(ProcessedInput(Number(form, "id").value, form["scale"].s, Number(form, "size").value,
        Number(form, "D10"), Number(form, "D16"), Number(form, "D25"),
        Number(form, "D50"), Number(form, "D65"), Number(form, "D75"),
        Number(form, "D90").value, Number(form, "D50mean").value))
  }

  /** The fields the input schema names. */
  const SchemaKeys: seq<string> :=
    ["id", "scale", "size", "D10", "D16", "D25", "D50", "D65", "D75", "D90", "D50mean"]

  /** The form a client sends for an input: every number as a number, the
      scale as text, and an absent optional D-value left out. */
  function FormOf(p: ProcessedInput): (form: Form)
    ensures forall k :: k in form ==> k in SchemaKeys
  {
    map k | k in SchemaKeys && FieldOf(p, k).Some? :: FieldOf(p, k).value
  }

  /** The field the form of `p` carries under `key`, if any. */
  function FieldOf(p: ProcessedInput, key: string): Option<FieldValue> {
    match key
    case "id" => Some(Num(p.id))
    case "scale" => Some(Text(p.scale))
    case "size" => Some(Num(p.size))
    case "D10" => NumberField(p.d10)
    case "D16" => NumberField(p.d16)
    case "D25" => NumberField(p.d25)
    case "D50" => NumberField(p.d50)
    case "D65" => NumberField(p.d65)
    case "D75" => NumberField(p.d75)
    case "D90" => Some(Num(p.d90))
    case "D50mean" => Some(Num(p.d50mean))
    case _ => None
  }

  function NumberField(v: Option<real>): Option<FieldValue> {
    if v.Some? then Some(Num(v.value)) else None
  }

  /** Validation accepts the form built from any input and gives that input back. */
  lemma ParseFormOf(p: ProcessedInput)
    ensures ParseProcessedInput(FormOf(p)) == Some(p)
  {
    FormOfRequired(p);
    FormOfOptional(p);
  }

  lemma FormOfRequired(p: ProcessedInput)
    ensures Number(FormOf(p), "id") == Some(p.id)
    ensures Number(FormOf(p), "size") == Some(p.size)
    ensures Number(FormOf(p), "D90") == Some(p.d90)
    ensures Number(FormOf(p), "D50mean") == Some(p.d50mean)
    ensures "scale" in FormOf(p) && FormOf(p)["scale"] == Text(p.scale)
  {
    FormOfAt(p, "id", Num(p.id));
    FormOfAt(p, "size", Num(p.size));
    FormOfAt(p, "D90", Num(p.d90));
    FormOfAt(p, "D50mean", Num(p.d50mean));
    FormOfAt(p, "scale", Text(p.scale));
  }

  /** A field the input always has is in its form. */
  lemma FormOfAt(p: ProcessedInput, k: string, f: FieldValue)
    requires k in SchemaKeys && FieldOf(p, k) == Some(f)
    ensures k in FormOf(p) && FormOf(p)[k] == f
  {
  }

  lemma FormOfOptional(p: ProcessedInput)
    ensures OptionalOk(FormOf(p), "D10") && Number(FormOf(p), "D10") == p.d10
    ensures OptionalOk(FormOf(p), "D16") && Number(FormOf(p), "D16") == p.d16
    ensures OptionalOk(FormOf(p), "D25") && Number(FormOf(p), "D25") == p.d25
    ensures OptionalOk(FormOf(p), "D50") && Number(FormOf(p), "D50") == p.d50
    ensures OptionalOk(FormOf(p), "D65") && Number(FormOf(p), "D65") == p.d65
    ensures OptionalOk(FormOf(p), "D75") && Number(FormOf(p), "D75") == p.d75
  {
    FormOfOptionalAt(p, "D10", p.d10);
    FormOfOptionalAt(p, "D16", p.d16);
    FormOfOptionalAt(p, "D25", p.d25);
    FormOfOptionalAt(p, "D50", p.d50);
    FormOfOptionalAt(p, "D65", p.d65);
    FormOfOptionalAt(p, "D75", p.d75);
  }

  /** An optional field is in the form exactly when the input has its value. */
  lemma FormOfOptionalAt(p: ProcessedInput, k: string, v: Option<real>)
    requires k in SchemaKeys && FieldOf(p, k) == NumberField(v)
    ensures OptionalOk(FormOf(p), k) && Number(FormOf(p), k) == v
  {
  }

  /** A form validation accepts agrees, on every field of the schema, with
      the form built from the input it yields: extra fields are ignored, and
      nothing else about the form is lost. */
  lemma AcceptedFormIsFormOf(form: Form)
    ensures ParseProcessedInput(form).Some? ==>
      forall k :: k in SchemaKeys ==>
        && (k in form <==> k in FormOf(ParseProcessedInput(form).value))
        && (k in form ==> form[k] == FormOf(ParseProcessedInput(form).value)[k])
  {
    if ParseProcessedInput(form).Some? {
      var p := ParseProcessedInput(form).value;
      var f := FormOf(p);
      forall k | k in SchemaKeys
        ensures k in form <==> k in f
        ensures k in form ==> form[k] == f[k]
      {
        assert k in ["id", "scale", "size", "D90", "D50mean"] || k in ["D10", "D16", "D25", "D50", "D65", "D75"];
      }
    }
  }

  /** The table key a JSON number denotes, if it denotes one: only a
      non-negative whole number equals an integer key. */
  function KeyOf(id: real): (r: Option<nat>)
    ensures r.Some? ==> r.value as real == id
    ensures forall n: nat :: n as real == id ==> r == Some(n)
  {
    if id == id.Floor as real && id.Floor >= 0 then Some(id.Floor) else None
  }

  /** The id matches some Submission row. */
  predicate Known(db: Db, id: real) {
    KeyOf(id).Some? && SubmissionExists(db, KeyOf(id).value)
  }

  /** Comparing keys as numbers finds a row exactly when the id is known. */
  lemma MatchIffKnown(db: Db, id: real)
    ensures (exists i :: 0 <= i < |db.submissions| && db.submissions[i].id as real == id) <==> Known(db, id)
  {
    if i :| 0 <= i < |db.submissions| && db.submissions[i].id as real == id {
      assert KeyOf(id) == Some(db.submissions[i].id);
    }
  }

  const ProcessedNotFoundMessage: string := "Processed data not found"

  /** What `db.insert(...)` without `.returning()` resolves to. */
  datatype InsertResult = InsertResult(rowsAffected: nat, lastInsertRowid: nat)

  datatype ProcessedOutcome = ProcessedOutcome(db: Db, result: Result<InsertResult, ActionFailure>)

  /** The row `createProcessed` inserts for a submission key. */
  function RowFor(key: nat, input: ProcessedInput): (row: Processed)
    ensures row.submissionId == key && row.scale == input.scale
    ensures row.d10 == input.d10 && row.d16 == input.d16 && row.d25 == input.d25
    ensures row.d50 == input.d50 && row.d65 == input.d65 && row.d75 == input.d75
    ensures row.d90 == Some(input.d90) && row.d50mean == Some(input.d50mean)
  {
    Processed(0, key, input.scale, input.d10, input.d16, input.d25, input.d50, input.d65, input.d75,
      Some(input.d90), Some(input.d50mean))
  }

  /** `createProcessed`: NOT_FOUND, with nothing changed, when no submission
      has the id; otherwise the Processed row is inserted first, and an
      insert the unique constraint rejects (a second result for the same
      submission) throws with nothing changed; after a successful insert the
      submission, and only it, gets the processing time and the size. */
  function CreateProcessed(db: Db, input: ProcessedInput, now: Instant): (o: ProcessedOutcome)
    requires Valid(db)
    ensures Valid(o.db)
    ensures !Known(db, input.id) ==>
      o == ProcessedOutcome(db, Err(ActionError(NotFound, SubmissionNotFoundMessage)))
    ensures Known(db, input.id) && ProcessedExistsFor(db, KeyOf(input.id).value) ==>
      o == ProcessedOutcome(db, Err(Unguarded))
    ensures Known(db, input.id) && !ProcessedExistsFor(db, KeyOf(input.id).value) ==>
      var key := KeyOf(input.id).value;
      && o.db.processed == db.processed + [RowFor(key, input).(id := db.nextProcessedId)]
      && o.db.submissions == MarkProcessed(db.submissions, key, now, input.size)
      && o.result == Ok(InsertResult(1, db.nextProcessedId))
  {
    MatchIffKnown(db, input.id);
    match FindFirst(db.submissions, (s: Submission) => s.id as real == input.id)
    case None => ProcessedOutcome(db, Err(ActionError(NotFound, SubmissionNotFoundMessage)))
    case Some(k) =>
      var key := db.submissions[k].id;
      assert KeyOf(input.id) == Some(key);
      match InsertProcessed(db, RowFor(key, input))
      case None => ProcessedOutcome(db, Err(Unguarded))
      case Some(inserted) =>
        MarkProcessedKeepsValid(inserted, key, now, input.size);
        ProcessedOutcome(inserted.(submissions := MarkProcessed(inserted.submissions, key, now, input.size)),
          Ok(InsertResult(1, db.nextProcessedId)))
  }

  /** After a successful `createProcessed` the submission has its result. */
  lemma CreatedHasResult(db: Db, input: ProcessedInput, now: Instant)
    requires Valid(db)
    requires CreateProcessed(db, input, now).result.Ok?
    ensures var db1 := CreateProcessed(db, input, now).db;
      Known(db1, input.id) && ProcessedExistsFor(db1, KeyOf(input.id).value)
  {
    var db1 := CreateProcessed(db, input, now).db;
    var key := KeyOf(input.id).value;
    assert db1.processed[|db.processed|].submissionId == key;
    var k :| 0 <= k < |db.submissions| && db.submissions[k].id == key;
    assert db1.submissions[k].id == key;
  }

  /** Delivering the same result twice stores it once: the second call
      throws and changes nothing. */
  lemma SecondDeliveryChangesNothing(db: Db, input: ProcessedInput, now1: Instant, now2: Instant)
    requires Valid(db)
    requires CreateProcessed(db, input, now1).result.Ok?
    ensures var db1 := CreateProcessed(db, input, now1).db;
      CreateProcessed(db1, input, now2) == ProcessedOutcome(db1, Err(Unguarded))
  {
    CreatedHasResult(db, input, now1);
  }

  /** `getProcessed`: the first Processed row for the submission id, or
      NOT_FOUND. */
  function GetProcessed(db: Db, id: real): (r: Result<Processed, ActionFailure>)
    ensures r.Err? <==> forall i :: 0 <= i < |db.processed| ==> db.processed[i].submissionId as real != id
    ensures r.Err? ==> r.error == ActionError(NotFound, ProcessedNotFoundMessage)
    ensures r.Ok? ==> r.value.submissionId as real == id
    ensures r.Ok? ==> exists k :: 0 <= k < |db.processed| && db.processed[k] == r.value
                                 && (forall j :: 0 <= j < k ==> db.processed[j].submissionId as real != id)
  {
    match FindFirst(db.processed, (p: Processed) => p.submissionId as real == id)
    case None => Err(ActionError(NotFound, ProcessedNotFoundMessage))
    case Some(k) => Ok(db.processed[k])
  }

  /** After a successful `createProcessed` its row is what `getProcessed`
      returns, and the submission carries the time and the size. */
  lemma StoredResultReadable(db: Db, input: ProcessedInput, now: Instant)
    requires Valid(db)
    requires CreateProcessed(db, input, now).result.Ok?
    ensures var db1 := CreateProcessed(db, input, now).db;
      && GetProcessed(db1, input.id) == Ok(RowFor(KeyOf(input.id).value, input).(id := db.nextProcessedId))
      && GetSubmission(db1, input.id).Ok?
      && GetSubmission(db1, input.id).value.size == Some(input.size)
      && GetSubmission(db1, input.id).value.processedAt == Some(now)
  {
    var db1 := CreateProcessed(db, input, now).db;
    var key := KeyOf(input.id).value;
    ProcessedReadable(db, db1, input, key);
    SubmissionReadable(db, db1.submissions, input.id, key, now, input.size);
  }

  lemma ProcessedReadable(db: Db, db1: Db, input: ProcessedInput, key: nat)
    requires Valid(db) && !ProcessedExistsFor(db, key) && key as real == input.id
    requires db1.processed == db.processed + [RowFor(key, input).(id := db.nextProcessedId)]
    ensures GetProcessed(db1, input.id) == Ok(RowFor(key, input).(id := db.nextProcessedId))
  {
    var p := |db.processed|;
    assert db1.processed[p].submissionId == key;
    assert forall j :: 0 <= j < p ==> db1.processed[j] == db.processed[j];
  }

  lemma SubmissionReadable(db: Db, rows: seq<Submission>, id: real, key: nat, now: Instant, size: real)
    requires Valid(db) && SubmissionExists(db, key) && key as real == id
    requires rows == MarkProcessed(db.submissions, key, now, size)
    ensures GetSubmission(db.(submissions := rows), id).Ok?
    ensures GetSubmission(db.(submissions := rows), id).value.size == Some(size)
    ensures GetSubmission(db.(submissions := rows), id).value.processedAt == Some(now)
  {
    var db1 := db.(submissions := rows);
    var k :| 0 <= k < |db.submissions| && db.submissions[k].id == key;
    assert rows[k].id == key;
    var r := GetSubmission(db1, id);
    assert r.Ok?;
    var k' :| 0 <= k' < |rows| && rows[k'] == r.value && (forall j :: 0 <= j < k' ==> rows[j].id as real != id);
    assert db.submissions[k'].id == key;
    assert k' == k;
  }
}
