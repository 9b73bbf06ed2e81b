/** The queue worker (queue/src/main.py): one job per queue message. The
    body `id,url` is parsed, the image downloaded, sent to the coin service
    for its scale, sent with that scale to the grain service, and the result
    posted to the web database; the message is deleted only when all of
    that succeeded. A message that is not deleted becomes visible again
    after the visibility timeout and is retried.

    Every remote call is an opaque function in `Services`; Python's `str()`
    of a JSON value is one too. */
module Worker {
  import opened Base
  import Text

  const DefaultVisibilityTimeout: string := "60"
  const DefaultCoinApi: string := "http://localhost:6080/predict"
  const DefaultGrainApi: string := "http://localhost:6081/predict"
  const DefaultDatabaseApi: string := "http://localhost:4321/api/process/"

  /** The environment variables the worker reads, as text; `None` when unset. */
  datatype Environment = Environment(
    connectionString: Option<string>,
    queueName: Option<string>,
    visibilityTimeout: Option<string>,
    coinApi: Option<string>,
    grainApi: Option<string>,
    databaseApi: Option<string>)

  datatype Endpoints = Endpoints(coin: string, grain: string, database: string)

  /** The receive request the worker repeats. */
  datatype ReceiveRequest = ReceiveRequest(messagesPerPage: nat, visibilityTimeout: int)

  datatype Startup = ExitWithStatus(code: int) | Watching(queueName: string, receive: ReceiveRequest, endpoints: Endpoints)

  /** Python's truth test on an optional string: unset and empty are false. */
  predicate Truthy(v: Option<string>) {
    v.Some? && |v.value| > 0
  }

  /** The whitespace `int()` ignores around its argument (its ASCII part). */
  predicate IsSpace(c: char) {
    c == ' ' || c == '\t' || c == '\n' || c == '\r' || c as int == 11 || c as int == 12
  }

  /** `s` without leading and trailing whitespace, as `str.strip()`. */
  function Strip(s: string): (r: string)
    ensures |r| <= |s|
    ensures |r| > 0 ==> !IsSpace(r[0]) && !IsSpace(r[|r| - 1])
    ensures (forall i :: 0 <= i < |s| ==> !IsSpace(s[i])) ==> r == s
    decreases |s|
  {
    if |s| > 0 && IsSpace(s[0]) then Strip(s[1..])
    else if |s| > 0 && IsSpace(s[|s| - 1]) then Strip(s[..|s| - 1])
    else s
  }

  /** Decimal digits, with single underscores allowed between two digits,
      as a Python integer literal spells them. */
  predicate DigitGroups(s: string) {
    && |s| > 0 && Text.IsDigit(s[0]) && Text.IsDigit(s[|s| - 1])
    && (forall i :: 0 <= i < |s| ==> Text.IsDigit(s[i]) || s[i] == '_')
    && (forall i :: 0 <= i < |s| - 1 ==> s[i] == '_' ==> s[i + 1] != '_')
  }

  /** A base-10 literal `int()` accepts once stripped: an optional sign and digit groups. */
  predicate IntLiteral(t: string) {
    DigitGroups(t) || (|t| > 0 && (t[0] == '+' || t[0] == '-') && DigitGroups(t[1..]))
  }

  /** The digits of `s` with the underscores dropped. */
  function RemoveUnderscores(s: string): (r: string)
    requires forall i :: 0 <= i < |s| ==> Text.IsDigit(s[i]) || s[i] == '_'
    ensures Text.AllDigits(r) && |r| <= |s|
    ensures Text.AllDigits(s) ==> r == s
    decreases |s|
  {
    if |s| == 0 then []
    else if s[0] == '_' then RemoveUnderscores(s[1..])
    else [s[0]] + RemoveUnderscores(s[1..])
  }

  function GroupsValue(s: string): nat
    requires DigitGroups(s)
  {
    Text.DecimalValue(RemoveUnderscores(s))
  }

  /** `int(s)` for a string in base 10; `None` where it raises ValueError.
      Digits outside ASCII are not modelled. */
  function PythonInt(s: string): (r: Option<int>)
    ensures r.Some? <==> IntLiteral(Strip(s))
  {
    LiteralValue(Strip(s))
  }

  /** The value of a stripped literal: digit groups, or a sign and digit groups. */
  function LiteralValue(t: string): (r: Option<int>)
    ensures r.Some? <==> IntLiteral(t)
    ensures DigitGroups(t) ==> r == Some(GroupsValue(t))
    ensures |t| > 0 && t[0] == '-' && DigitGroups(t[1..]) ==> r == Some(0 - GroupsValue(t[1..]))
    ensures |t| > 0 && t[0] == '+' && DigitGroups(t[1..]) ==> r == Some(GroupsValue(t[1..]))
  {
    if DigitGroups(t) then Some(GroupsValue(t))
    else if |t| > 0 && (t[0] == '+' || t[0] == '-') && DigitGroups(t[1..]) then
      Some(if t[0] == '-' then 0 - GroupsValue(t[1..]) else GroupsValue(t[1..]))
    else None
  }

  /** `int()` reads back what `str()` writes for any integer. */
  lemma PythonIntReadsDecimal(n: nat)
    ensures PythonInt(Text.Decimal(n)) == Some(n)
    ensures PythonInt("-" + Text.Decimal(n)) == Some(0 - n)
  {
    PositiveReads(n);
    NegativeReads(n);
  }

  lemma PositiveReads(n: nat)
    ensures PythonInt(Text.Decimal(n)) == Some(n)
  {
    var d := Text.Decimal(n);
    Text.DecimalRoundTrip(n);
    DigitsAreGroups(d);
  }

  lemma NegativeReads(n: nat)
    ensures PythonInt("-" + Text.Decimal(n)) == Some(0 - n)
  {
    var d := Text.Decimal(n);
    var t := "-" + d;
    NegativeStripped(d);
    NegativeLiteral(d);
    assert PythonInt(t) == Some(0 - GroupsValue(d));
    Text.DecimalRoundTrip(n);
    DigitsAreGroups(d);
  }

  lemma NegativeLiteral(d: string)
    requires DigitGroups(d)
    ensures LiteralValue("-" + d) == Some(0 - GroupsValue(d))
  {
    var t := "-" + d;
    assert t[1..] == d;
    assert !DigitGroups(t) by {
      assert t[0] == '-';
    }
  }

  /** A non-empty digit string is an integer literal worth its decimal value. */
  lemma DigitsAreGroups(d: string)
    requires |d| > 0 && Text.AllDigits(d)
    ensures DigitGroups(d) && Strip(d) == d && GroupsValue(d) == Text.DecimalValue(d)
  {
    assert forall i :: 0 <= i < |d| ==> !IsSpace(d[i]);
  }

  /** A minus sign before digits survives stripping. */
  lemma NegativeStripped(d: string)
    requires Text.AllDigits(d)
    ensures Strip("-" + d) == "-" + d
  {
    var t := "-" + d;
    forall i | 0 <= i < |t|
      ensures !IsSpace(t[i])
    {
      if i > 0 {
        assert t[i] == d[i - 1];
      }
    }
  }

  /** The default parses to 60 seconds; an empty or suffixed setting raises. */
  lemma PythonIntExamples()
    ensures PythonInt(DefaultVisibilityTimeout) == Some(60)
    ensures PythonInt("") == None
    ensures PythonInt("60s") == None
  {
    DigitsAreGroups("60");
    assert Text.DecimalValue("60") == 60 by {
      assert "60"[..1] == "6";
      assert "6"[..0] == "";
    }
    var t := "60s";
    assert forall i :: 0 <= i < |t| ==> !IsSpace(t[i]);
    assert !Text.IsDigit(t[2]);
  }

  /** Whether `QueueClient.from_connection_string` accepts a connection
      string; it raises on a malformed one. Parsing it belongs to the Azure
      client library, so it is a parameter. */
  type ConnectionParser = string -> bool

  /** The configuration block and the start of `run_worker()`.
      `int(os.getenv("VISIBILITY_TIMEOUT", "60"))` runs at import, so a set
      value `int()` cannot read ends the process with status 1 first; then
      `run_worker()` exits with status 1 unless both the connection string
      and the queue name are set and non-empty; then building the queue
      client, outside any `try`, ends the process with status 1 when it
      rejects the connection string. Otherwise the worker watches the queue,
      asking for one message per page with the parsed timeout. */
  function StartWorker(env: Environment, accepts: ConnectionParser): (s: Startup)
    ensures s.ExitWithStatus? <==>
      || PythonInt(env.visibilityTimeout.GetOr(DefaultVisibilityTimeout)).None?
      || !Truthy(env.connectionString) || !Truthy(env.queueName)
      || !accepts(env.connectionString.value)
    ensures s.ExitWithStatus? ==> s.code == 1
    ensures s.Watching? ==>
      && s.queueName == env.queueName.value
      && s.receive.messagesPerPage == 1
      && Some(s.receive.visibilityTimeout) == PythonInt(env.visibilityTimeout.GetOr(DefaultVisibilityTimeout))
      && s.endpoints.coin == env.coinApi.GetOr(DefaultCoinApi)
      && s.endpoints.grain == env.grainApi.GetOr(DefaultGrainApi)
      && s.endpoints.database == env.databaseApi.GetOr(DefaultDatabaseApi)
  {
    var timeout := PythonInt(env.visibilityTimeout.GetOr(DefaultVisibilityTimeout));
    if timeout.None? then ExitWithStatus(1)
    else if !Truthy(env.connectionString) || !Truthy(env.queueName) then ExitWithStatus(1)
    else if !accepts(env.connectionString.value) then ExitWithStatus(1)
    else
      Watching(env.queueName.value,
        ReceiveRequest(1, timeout.value),
        Endpoints(env.coinApi.GetOr(DefaultCoinApi), env.grainApi.GetOr(DefaultGrainApi),
                  env.databaseApi.GetOr(DefaultDatabaseApi)))
  }

  /** With the timeout unset, the Azure settings decide alone: the worker
      starts iff both are set and non-empty and the client accepts the
      connection string, and it then polls with 60 seconds. */
  lemma DefaultTimeoutStarts(env: Environment, accepts: ConnectionParser)
    ensures env.visibilityTimeout.None? ==>
      && (StartWorker(env, accepts).Watching? <==>
            Truthy(env.connectionString) && Truthy(env.queueName) && accepts(env.connectionString.value))
      && (StartWorker(env, accepts).Watching? ==> StartWorker(env, accepts).receive.visibilityTimeout == 60)
  {
    PythonIntExamples();
  }

  /** `id, image_url = body.split(",")`: succeeds exactly when the body holds
      one comma, giving the text before and after it; either may be empty. */
  function ParseBody(body: string): (r: Result<(string, string), string>)
    ensures r.Ok? <==> Text.Count(body, ',') == 1
    ensures r.Ok? ==> body == r.value.0 + "," + r.value.1
    ensures r.Ok? ==> ',' !in r.value.0 && ',' !in r.value.1
  {
    var parts := Text.Split(body, ',');
    if |parts| != 2 then Err(body)
    else
      assert Text.Join(parts[1..], ',') == parts[1];
      Ok((parts[0], parts[1]))
  }

  /** Parsing inverts the way a body is built from an id and a URL that
      contain no comma. */
  lemma ParseBodyRoundTrip(id: string, url: string)
    requires ',' !in id && ',' !in url
    ensures ParseBody(id + "," + url) == Ok((id, url))
  {
    assert Text.Join([id, url], ',') == id + "," + url by {
      assert [id, url][1..] == [url];
    }
    Text.SplitJoin([id, url], ',');
  }

  /** A queue message as the Azure client hands it over. */
  datatype QueueMessage = QueueMessage(id: string, content: string)

  /** The result of `requests.get(url)`: the status is never looked at. */
  datatype Fetched = Fetched(status: nat, content: Bytes)

  /** A reply to a POST, with its body when the body is JSON. */
  datatype HttpReply = Reply(status: nat, body: Option<Json>) | ConnectionFailed

  /** The form fields of the grain request, each `str()` of a coin value. */
  datatype GrainForm = GrainForm(
    image: Bytes,
    mmPerPixel: string,
    coinCenterX: string,
    coinCenterY: string,
    coinRadiusPx: string)

  /** The form posted to the database, as an ordered dictionary. */
  type Payload = seq<(string, Json)>

  datatype Services = Services(
    download: string -> Option<Fetched>,      // `None` when `requests.get` raises
    coin: (string, Bytes) -> HttpReply,
    grain: (string, GrainForm) -> HttpReply,
    database: (string, Payload) -> HttpReply,
    delete: QueueMessage -> bool,             // `false` when `delete_message` raises
    str: Json -> string)

  /** The steps of one job, in the order they run. */
  datatype Stage = Parsing | Downloading | ScaleDetection | GrainSizing | Recording | Deleting

  /** How many remote calls have been made once `s` has been entered. */
  function Ordinal(s: Stage): nat {
    match s
    case Parsing => 0
    case Downloading => 1
    case ScaleDetection => 2
    case GrainSizing => 3
    case Recording => 4
    case Deleting => 5
  }

  datatype Call =
    | Download(url: string)
    | PostCoin(coinEndpoint: string, image: Bytes)
    | PostGrain(grainEndpoint: string, form: GrainForm)
    | PostDatabase(databaseEndpoint: string, payload: Payload)
    | Delete(message: QueueMessage)

  function CallStage(c: Call): Stage {
    match c
    case Download(_) => Downloading
    case PostCoin(_, _) => ScaleDetection
    case PostGrain(_, _) => GrainSizing
    case PostDatabase(_, _) => Recording
    case Delete(_) => Deleting
  }

  /** The calls follow the pipeline's order, each stage at most once. */
  predicate InPipelineOrder(calls: seq<Call>) {
    |calls| <= 5 && forall i :: 0 <= i < |calls| ==> Ordinal(CallStage(calls[i])) == i + 1
  }

  /** What handling one message did: the calls made, in order, and the
      stage that failed, if any. */
  datatype Outcome = Outcome(calls: seq<Call>, failedAt: Option<Stage>, deleted: bool)

  /** `response.raise_for_status()` then `response.json()`. */
  function JsonOf(reply: HttpReply): (r: Option<Json>)
    ensures r.Some? <==> reply.Reply? && !(400 <= reply.status < 600) && reply.body.Some?
    ensures r.Some? ==> r.value == reply.body.value
  {
    match reply
    case ConnectionFailed => None
    case Reply(status, body) => if 400 <= status < 600 then None else body
  }

  /** The database payload keys, in the order the source writes them. */
  const PayloadKeys: seq<string> := ["id", "scale", "size", "D10", "D16", "D25", "D50", "D65", "D75", "D90", "D50mean"]

  /** The distribution keys forwarded to the database: all but "D84". */
  const ForwardedDistributionKeys: seq<string> := ["D10", "D16", "D25", "D50", "D65", "D75", "D90", "D50mean"]

  /** `distribution.get(key, "")`. */
  function DistributionEntry(distribution: map<string, Json>, key: string): (v: Json)
    ensures key in distribution ==> v == distribution[key]
    ensures key !in distribution ==> v == JStr("")
  {
    if key in distribution then distribution[key] else JStr("")
  }

  /** `post_process_data`'s payload: the id, scale and size as given, and
      the eight forwarded distribution entries, blank where missing. */
  function BuildPayload(id: string, scale: string, size: string, distribution: map<string, Json>): (p: Payload)
    ensures |p| == |PayloadKeys|
    ensures forall i :: 0 <= i < |p| ==> p[i].0 == PayloadKeys[i]
    ensures p[0].1 == JStr(id) && p[1].1 == JStr(scale) && p[2].1 == JStr(size)
    ensures forall i :: 3 <= i < |p| ==> p[i].1 == DistributionEntry(distribution, PayloadKeys[i])
  {
    [("id", JStr(id)), ("scale", JStr(scale)), ("size", JStr(size))]
      + seq(8, i requires 0 <= i < 8 =>
          (ForwardedDistributionKeys[i], DistributionEntry(distribution, ForwardedDistributionKeys[i])))
  }

  /** D84 is computed by the grain service but never reaches the database,
      and no key is sent twice. */
  lemma PayloadOmitsD84(id: string, scale: string, size: string, distribution: map<string, Json>)
    ensures forall i :: 0 <= i < |BuildPayload(id, scale, size, distribution)| ==>
      BuildPayload(id, scale, size, distribution)[i].0 != "D84"
    ensures forall i, j :: 0 <= i < j < |PayloadKeys| ==> PayloadKeys[i] != PayloadKeys[j]
  {
  }

  /** The coin fields forwarded to the grain service, in order. */
  const CoinFields: seq<string> := ["mm_per_pixel", "coin_center_x", "coin_center_y", "coin_radius_px"]

  /** The four coin values `prediction[...]` reads, or `None` when one is
      missing (Python raises). */
  function CoinValues(prediction: Json): (r: Option<seq<Json>>)
    ensures r.Some? <==> forall i :: 0 <= i < 4 ==> Field(prediction, CoinFields[i]).Some?
    ensures r.Some? ==> |r.value| == 4 && forall i :: 0 <= i < 4 ==> Field(prediction, CoinFields[i]) == Some(r.value[i])
  {
    if forall i :: 0 <= i < 4 ==> Field(prediction, CoinFields[i]).Some? then
      Some(seq(4, i requires 0 <= i < 4 => Field(prediction, CoinFields[i]).value))
    else None
  }

  /** `grain_prediction.get("distribution_mm", {})`, or `None` when the
      value is there but is not an object (its `.get` raises). */
  function DistributionOf(grainPrediction: Json): (r: Option<map<string, Json>>)
    requires grainPrediction.JObj?
    ensures "distribution_mm" !in grainPrediction.fields ==> r == Some(map[])
    ensures "distribution_mm" in grainPrediction.fields ==>
      (r.Some? <==> grainPrediction.fields["distribution_mm"].JObj?)
    ensures r.Some? && "distribution_mm" in grainPrediction.fields ==>
      r.value == grainPrediction.fields["distribution_mm"].fields
  {
    if "distribution_mm" !in grainPrediction.fields then Some(map[])
    else
      match grainPrediction.fields["distribution_mm"]
      case JObj(fields) => Some(fields)
      case _ => None
  }

  /** The outcome of the part of a job that starts with the call of
      ordinal `k`: its calls follow the pipeline from there, it deletes
      exactly when nothing failed, and a failure at a stage leaves exactly
      the calls up to that stage. */
  predicate WellFormedFrom(o: Outcome, k: nat) {
    && 1 <= k <= 5
    && |o.calls| <= 6 - k
    && (forall i :: 0 <= i < |o.calls| ==> Ordinal(CallStage(o.calls[i])) == k + i)
    && (o.deleted <==> o.failedAt.None?)
    && (o.deleted ==> |o.calls| == 6 - k)
    && (o.failedAt.Some? ==> k - 1 <= Ordinal(o.failedAt.value) && |o.calls| == Ordinal(o.failedAt.value) - (k - 1))
  }

  /** Prefixing the call of ordinal `k` to a well-formed rest. */
  function Then(c: Call, rest: Outcome): (o: Outcome)
    requires 1 <= Ordinal(CallStage(c)) <= 4
    requires WellFormedFrom(rest, Ordinal(CallStage(c)) + 1)
    ensures WellFormedFrom(o, Ordinal(CallStage(c)))
    ensures o.calls == [c] + rest.calls && o.failedAt == rest.failedAt && o.deleted == rest.deleted
  {
    Outcome([c] + rest.calls, rest.failedAt, rest.deleted)
  }

  /** The job failed at `s` right after making `c`. */
  function FailedAfter(c: Call): (o: Outcome)
    requires 1 <= Ordinal(CallStage(c))
    ensures WellFormedFrom(o, Ordinal(CallStage(c)))
    ensures o.calls == [c] && o.failedAt == Some(CallStage(c)) && !o.deleted
  {
    Outcome([c], Some(CallStage(c)), false)
  }

  /** The delete stage. */
  function FinishJob(msg: QueueMessage, svc: Services): (o: Outcome)
    ensures WellFormedFrom(o, 5)
    ensures o.calls == [Delete(msg)]
    ensures o.deleted <==> svc.delete(msg)
  {
    if svc.delete(msg) then Outcome([Delete(msg)], None, true)
    else FailedAfter(Delete(msg))
  }

  /** From the grain reply on: read `size_mm` and the distribution, post the
      payload, then delete. A reply without them fails before any call. */
  function RecordResult(msg: QueueMessage, id: string, scaleText: string, grainPrediction: Json,
                        ep: Endpoints, svc: Services): (o: Outcome)
    ensures WellFormedFrom(o, 4)
    ensures o.calls == [] <==> o.failedAt == Some(GrainSizing)
    ensures Field(grainPrediction, "size_mm").Some? && DistributionOf(grainPrediction).Some? ==> |o.calls| > 0
    ensures |o.calls| > 0 ==>
      && Field(grainPrediction, "size_mm").Some?
      && DistributionOf(grainPrediction).Some?
      && o.calls[0] == PostDatabase(ep.database,
           BuildPayload(id, scaleText, svc.str(Field(grainPrediction, "size_mm").value), DistributionOf(grainPrediction).value))
    ensures |o.calls| > 1 ==> JsonOf(svc.database(o.calls[0].databaseEndpoint, o.calls[0].payload)).Some?
  {
    match Field(grainPrediction, "size_mm")
    case None => Outcome([], Some(GrainSizing), false)
    case Some(size) =>
      match DistributionOf(grainPrediction)
      case None => Outcome([], Some(GrainSizing), false)
      case Some(distribution) =>
        var post := PostDatabase(ep.database, BuildPayload(id, scaleText, svc.str(size), distribution));
        if JsonOf(svc.database(ep.database, post.payload)).None? then FailedAfter(post)
        else Then(post, FinishJob(msg, svc))
  }

  /** The grain stage: post the image and the coin's four values as text. */
  function GrainStage(msg: QueueMessage, id: string, image: Bytes, values: seq<Json>, ep: Endpoints, svc: Services): (o: Outcome)
    requires |values| == 4
    ensures WellFormedFrom(o, 3)
    ensures |o.calls| > 0 && o.calls[0] == PostGrain(ep.grain,
      GrainForm(image, svc.str(values[0]), svc.str(values[1]), svc.str(values[2]), svc.str(values[3])))
    ensures |o.calls| > 1 ==>
      && JsonOf(svc.grain(ep.grain, o.calls[0].form)).Some?
      && o.calls[1..] == RecordResult(msg, id, svc.str(values[0]), JsonOf(svc.grain(ep.grain, o.calls[0].form)).value, ep, svc).calls
  {
    var form := GrainForm(image, svc.str(values[0]), svc.str(values[1]), svc.str(values[2]), svc.str(values[3]));
    var post := PostGrain(ep.grain, form);
    match JsonOf(svc.grain(ep.grain, form))
    case None => FailedAfter(post)
    case Some(grainPrediction) => Then(post, RecordResult(msg, id, svc.str(values[0]), grainPrediction, ep, svc))
  }

  /** The coin stage: post the image, then read the four coin values. */
  function CoinStage(msg: QueueMessage, id: string, image: Bytes, ep: Endpoints, svc: Services): (o: Outcome)
    ensures WellFormedFrom(o, 2)
    ensures |o.calls| > 0 && o.calls[0] == PostCoin(ep.coin, image)
    ensures |o.calls| > 1 ==>
      && JsonOf(svc.coin(ep.coin, image)).Some?
      && CoinValues(JsonOf(svc.coin(ep.coin, image)).value).Some?
      && o.calls[1..] == GrainStage(msg, id, image, CoinValues(JsonOf(svc.coin(ep.coin, image)).value).value, ep, svc).calls
  {
    var post := PostCoin(ep.coin, image);
    match JsonOf(svc.coin(ep.coin, image))
    case None => FailedAfter(post)
    case Some(prediction) =>
      match CoinValues(prediction)
      case None => FailedAfter(post)
      case Some(values) => Then(post, GrainStage(msg, id, image, values, ep, svc))
  }

  /** The body of the inner `try` for one message: parse, download, then
      the remote stages in order, stopping at the first failure. */
  function ProcessMessage(msg: QueueMessage, ep: Endpoints, svc: Services): (o: Outcome)
    ensures InPipelineOrder(o.calls)
    ensures o.deleted <==> o.failedAt.None?
    ensures o.deleted ==> |o.calls| == 5
    ensures o.failedAt.Some? ==> |o.calls| == Ordinal(o.failedAt.value)
    ensures o.failedAt == Some(Parsing) <==> ParseBody(msg.content).Err?
    ensures ParseBody(msg.content).Ok? ==> |o.calls| > 0 && o.calls[0] == Download(ParseBody(msg.content).value.1)
    ensures |o.calls| > 1 ==>
      && ParseBody(msg.content).Ok?
      && svc.download(ParseBody(msg.content).value.1).Some?
      && o.calls[1..] == CoinStage(msg, ParseBody(msg.content).value.0,
           svc.download(ParseBody(msg.content).value.1).value.content, ep, svc).calls
  {
    match ParseBody(msg.content)
    case Err(_) => Outcome([], Some(Parsing), false)
    case Ok((id, url)) =>
      match svc.download(url)
      case None => FailedAfter(Download(url))
      case Some(fetched) => Then(Download(url), CoinStage(msg, id, fetched.content, ep, svc))
  }

  /** A job is deleted exactly when every stage succeeded: the body parsed,
      the download returned, both services answered with JSON carrying the
      fields read from it, the database accepted the payload, and the
      delete went through. */
  lemma DeletedIffEveryStageSucceeds(msg: QueueMessage, ep: Endpoints, svc: Services)
    ensures ProcessMessage(msg, ep, svc).deleted <==>
      && ParseBody(msg.content).Ok?
      && svc.download(ParseBody(msg.content).value.1).Some?
      && var image := svc.download(ParseBody(msg.content).value.1).value.content;
         && JsonOf(svc.coin(ep.coin, image)).Some?
         && CoinValues(JsonOf(svc.coin(ep.coin, image)).value).Some?
         && var values := CoinValues(JsonOf(svc.coin(ep.coin, image)).value).value;
            var form := GrainForm(image, svc.str(values[0]), svc.str(values[1]), svc.str(values[2]), svc.str(values[3]));
            && JsonOf(svc.grain(ep.grain, form)).Some?
            && var g := JsonOf(svc.grain(ep.grain, form)).value;
               && g.JObj? && "size_mm" in g.fields && DistributionOf(g).Some?
               && JsonOf(svc.database(ep.database,
                    BuildPayload(ParseBody(msg.content).value.0, svc.str(values[0]),
                                 svc.str(g.fields["size_mm"]), DistributionOf(g).value))).Some?
               && svc.delete(msg)
  {
  }

  /** Each call is fed by the one before: the coin and grain services get
      the downloaded bytes, the grain form carries `str()` of the coin's four
      values unchanged, and the database gets the parsed id and the coin's
      scale. */
  lemma StagesFeedForward(msg: QueueMessage, ep: Endpoints, svc: Services)
    requires |ProcessMessage(msg, ep, svc).calls| >= 4
    ensures var o := ProcessMessage(msg, ep, svc);
      && ParseBody(msg.content).Ok?
      && var (id, url) := ParseBody(msg.content).value;
         && svc.download(url).Some?
         && o.calls[0] == Download(url)
         && o.calls[1] == PostCoin(ep.coin, svc.download(url).value.content)
         && JsonOf(svc.coin(ep.coin, svc.download(url).value.content)).Some?
         && var prediction := JsonOf(svc.coin(ep.coin, svc.download(url).value.content)).value;
            && (forall i :: 0 <= i < 4 ==> Field(prediction, CoinFields[i]).Some?)
            && o.calls[2] == PostGrain(ep.grain, GrainForm(svc.download(url).value.content,
                 svc.str(Field(prediction, "mm_per_pixel").value),
                 svc.str(Field(prediction, "coin_center_x").value),
                 svc.str(Field(prediction, "coin_center_y").value),
                 svc.str(Field(prediction, "coin_radius_px").value)))
            && o.calls[3].PostDatabase?
            && o.calls[3].payload[0] == ("id", JStr(id))
            && o.calls[3].payload[1] == ("scale", JStr(svc.str(Field(prediction, "mm_per_pixel").value)))
  {
    var o := ProcessMessage(msg, ep, svc);
    var (id, url) := ParseBody(msg.content).value;
    var image := svc.download(url).value.content;
    var prediction := JsonOf(svc.coin(ep.coin, image)).value;
    var values := CoinValues(prediction).value;
    assert Field(prediction, CoinFields[0]) == Some(values[0]);
    assert Field(prediction, CoinFields[1]) == Some(values[1]);
    assert Field(prediction, CoinFields[2]) == Some(values[2]);
    assert Field(prediction, CoinFields[3]) == Some(values[3]);
  }

  /** A body without exactly one comma makes no remote call and is never
      deleted, so the queue hands it out again and again. */
  lemma MalformedBodyIsRetried(msg: QueueMessage, ep: Endpoints, svc: Services)
    requires Text.Count(msg.content, ',') != 1
    ensures ProcessMessage(msg, ep, svc) == Outcome([], Some(Parsing), false)
  {
  }

  /** The download's status is not checked: an error page's bytes go to the
      coin service like an image's. */
  lemma DownloadStatusIgnored(msg: QueueMessage, ep: Endpoints, svc: Services, status: nat, content: Bytes)
    requires ParseBody(msg.content).Ok?
    requires svc.download(ParseBody(msg.content).value.1) == Some(Fetched(status, content))
    ensures |ProcessMessage(msg, ep, svc).calls| >= 2
    ensures ProcessMessage(msg, ep, svc).calls[1] == PostCoin(ep.coin, content)
  {
  }

  /** The queue as a multiset of messages waiting to be (re)delivered. */
  type Queue = multiset<QueueMessage>

  /** Handling one received message: it leaves the queue when deleted and
      otherwise stays, to reappear after the visibility timeout. */
  function HandleReceived(queue: Queue, msg: QueueMessage, ep: Endpoints, svc: Services): (q: Queue)
    requires msg in queue
    ensures ProcessMessage(msg, ep, svc).deleted ==> q[msg] == queue[msg] - 1
    ensures !ProcessMessage(msg, ep, svc).deleted ==> q == queue
    ensures forall m :: m != msg ==> q[m] == queue[m]
  {
    if ProcessMessage(msg, ep, svc).deleted then queue - multiset{msg} else queue
  }

  /** A failed job never loses its message. */
  lemma FailedJobStaysQueued(queue: Queue, msg: QueueMessage, ep: Endpoints, svc: Services)
    requires msg in queue
    requires ProcessMessage(msg, ep, svc).failedAt.Some?
    ensures msg in HandleReceived(queue, msg, ep, svc)
  {
  }

  /** The messages of one receive request handled in turn, as the body of
      `for msg in messages` does: a deleted job removes one copy of its
      message, and every other message keeps its count. The messages are
      distinct and all in the queue. */
  function PollRound(queue: Queue, page: seq<QueueMessage>, ep: Endpoints, svc: Services): (q: Queue)
    requires forall i, j :: 0 <= i < j < |page| ==> page[i] != page[j]
    requires forall i :: 0 <= i < |page| ==> page[i] in queue
    ensures forall m :: q[m] + Taken(m, page, ProcessMessage(m, ep, svc).deleted) == queue[m]
    decreases |page|
  {
    if |page| == 0 then queue
    else
      var q1 := HandleReceived(queue, page[0], ep, svc);
      var rest := page[1..];
      assert page[0] !in rest;
      assert forall i :: 0 <= i < |rest| ==> rest[i] in q1 by {
        forall i | 0 <= i < |rest|
          ensures rest[i] in q1
        {
          assert rest[i] == page[i + 1] != page[0];
        }
      }
      var q := PollRound(q1, rest, ep, svc);
      PollStep(queue, q1, q, page, m => ProcessMessage(m, ep, svc).deleted);
      q
  }

  /** Handling the first message of a page and then the rest removes what
      handling the whole page removes. */
  lemma PollStep(queue: Queue, q1: Queue, q: Queue, page: seq<QueueMessage>, deleted: QueueMessage -> bool)
    requires |page| > 0 && page[0] !in page[1..]
    requires deleted(page[0]) ==> q1[page[0]] + 1 == queue[page[0]]
    requires !deleted(page[0]) ==> q1 == queue
    requires forall m :: m != page[0] ==> q1[m] == queue[m]
    requires forall m :: q[m] + Taken(m, page[1..], deleted(m)) == q1[m]
    ensures forall m :: q[m] + Taken(m, page, deleted(m)) == queue[m]
  {
    forall m
      ensures q[m] + Taken(m, page, deleted(m)) == queue[m]
    {
      TakenSplit(m, page, deleted(m));
    }
  }

  /** How many copies of `m` a page removes: one when it holds `m` and the
      job deleted it. */
  function Taken(m: QueueMessage, page: seq<QueueMessage>, deleted: bool): (n: nat)
    ensures n <= 1
  {
    if m in page && deleted then 1 else 0
  }

  lemma TakenSplit(m: QueueMessage, page: seq<QueueMessage>, deleted: bool)
    requires |page| > 0 && page[0] !in page[1..]
    ensures Taken(m, page, deleted) == Taken(m, [page[0]], deleted) + Taken(m, page[1..], deleted)
  {
    assert m in page <==> m == page[0] || m in page[1..] by {
      assert page == [page[0]] + page[1..];
    }
  }

  /** How many pages come before the first empty one. */
  function Filled(pages: seq<seq<QueueMessage>>): (n: nat)
    ensures n <= |pages|
    ensures forall i :: 0 <= i < n ==> |pages[i]| > 0
    ensures n < |pages| ==> |pages[n]| == 0
    decreases |pages|
  {
    if |pages| == 0 || |pages[0]| == 0 then 0 else 1 + Filled(pages[1..])
  }

  /** The messages `for msg in messages` yields from one receive request:
      the paged result fetches page after page until one comes back empty. */
  function Drained(pages: seq<seq<QueueMessage>>): (r: seq<QueueMessage>)
    ensures r == [] <==> Filled(pages) == 0
    decreases |pages|
  {
    if |pages| == 0 || |pages[0]| == 0 then [] else pages[0] + Drained(pages[1..])
  }

  /** Pages of at most one message yield the head of every page before the
      first empty one, in page order. */
  lemma {:induction false} OnePerPage(pages: seq<seq<QueueMessage>>)
    requires forall i :: 0 <= i < |pages| ==> |pages[i]| <= 1
    ensures |Drained(pages)| == Filled(pages)
    ensures forall i :: 0 <= i < Filled(pages) ==> Drained(pages)[i] == pages[i][0]
    decreases |pages|
  {
    if |pages| > 0 && |pages[0]| > 0 {
      OnePerPage(pages[1..]);
      assert Drained(pages) == [pages[0][0]] + Drained(pages[1..]);
      forall i | 0 < i < Filled(pages)
        ensures Drained(pages)[i] == pages[i][0]
      {
        assert pages[1..][i - 1] == pages[i];
      }
    }
  }

  /** A started worker asks for one message per page, so one turn of its
      loop takes one message from each page until a page comes back empty:
      it handles as many jobs as there were non-empty pages, in order. */
  lemma {:induction false} StartedWorkerDrainsOnePerPage(env: Environment, accepts: ConnectionParser, pages: seq<seq<QueueMessage>>)
    requires StartWorker(env, accepts).Watching?
    requires forall i :: 0 <= i < |pages| ==> |pages[i]| <= StartWorker(env, accepts).receive.messagesPerPage
    ensures |Drained(pages)| == Filled(pages)
    ensures forall i :: 0 <= i < Filled(pages) ==> Drained(pages)[i] == pages[i][0]
  {
    OnePerPage(pages);
  }
}
