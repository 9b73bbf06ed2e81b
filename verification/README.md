# sandsnap-app in Dafny

A model of the logic behind sandsnap-app, which measures sediment grain size
from phone photographs of sand with a reference coin in the frame. It covers
the system's five pieces:

- **Coin service** (`coin/src/inference.py`, module `CoinInference`):
  - the model-readiness check;
  - the YOLO segmentation result reduced to its first outline and its single class;
  - the label table;
  - scale and geometry from the fitted ellipse: `diameter = (w+h)/2`,
    `mm_per_pixel = 24.26/diameter`, and centre and radius truncated to integers;
  - the 503/500 error mapping.
- **Grain service** (`grain/src/inference.py` and `grain/src/app.py`,
  modules `Tiling`, `Median`, `GrainInference` and `GrainApp`):
  - the strict 1024-pixel tiling grid that skips tiles overlapping the coin's
    box (radius plus 50 pixels);
  - the all-or-nothing per-tile estimation;
  - the per-column median over the tiles' 9-value percentile vectors, averaging
    the two middle values for an even count, as numpy does;
  - the `D10`…`D90` response scaled by `mm_per_pixel`;
  - the `/predict` handler's coin construction and 500 mapping, and the health check.
- **SediNet configuration** (`grain/src/sedinet/predict.py`, `load_config`,
  module `SedinetConfig`): the six required keys, and the sorted list of keys
  that start with none of sixteen reserved prefixes.
- **Queue worker** (`queue/src/main.py`, module `Worker`):
  - the startup checks;
  - the `id,url` message parser;
  - the download → coin → grain → database pipeline, with the rule that the
    message is deleted only when every stage succeeded;
  - the form payloads.
- **Web store** (`web/db/config.ts`, `web/src/actions/submission.ts`,
  `web/src/actions/processed.ts`, modules `WebDb`, `WebSubmission`,
  `WebProcessed`):
  - the two tables, with their key, uniqueness and reference invariants;
  - the create and get actions as state transitions;
  - the job message `${id},${url}`. Module `Handoff` proves it round-trips
    through the worker's parser exactly when the URL has no comma.

Shared pieces:
- `Base`: Option, Result, bytes and JSON values.
- `Sorting`: insertion sort, uniqueness of sorted rearrangements, and maps over sequences.
- `Text`: Python's `split`, `startswith`, string ordering and decimal rendering.

Everything the services call but do not compute is a function-valued
parameter:
- YOLO, `cv2.fitEllipse`, PIL decoding and the SediNet estimator;
- the HTTP services, the queue and the image host;
- Python's `str()` of a JSON value.

Clocks are `Instant` arguments. The web tables are sequences of rows in
insertion order, and each carries an auto-increment counter.

Behaviour of the code that a reader may not expect, which the model keeps as written:
- **Tiling grid:** the bound is strict (`range(0, h - 1024, 1024)`), so a
  2048×2048 image gives one tile, not four, and an image exactly 1024 pixels
  high gives none.
- **Failing tile:** a single tile whose estimate raises discards the whole
  image. Failed tiles are not dropped from the median.
- **Scale:** `mm_per_pixel` is not validated.
- **Centre and radius:** truncated toward zero, not rounded.
- **No coin found:** `segment`'s 400 reaches the client as a 500.
- **Malformed message:** a body without exactly one comma is not deleted, so
  it is redelivered forever.
- **Empty parts:** an empty id or URL is accepted by the parser.

## Model

| member | source | states |
|---|---|---|
| Tiling.Offsets | grain/src/inference.py:20-22 | `range(start, stop, 1024)` yields exactly the values from start below stop that are a multiple of 1024 past start, strictly increasing |
| Tiling.PrepareTiles | grain/src/inference.py:10-39 | a tile origin is produced iff it lies on the 1024 grid with `y+1024 < h` and `x+1024 < w` and no coin overlaps it under the four-sided box test with the 50-pixel margin; tiles come out in row-major order |
| Tiling.CoinTilesAreFilteredGrid | grain/src/inference.py:25-35 | the tiling with a coin equals the coin-free tiling with the overlapping tiles removed, order kept: an order-preserving subsequence |
| Tiling.TilesInsideImageAndClearOfCoin | grain/src/inference.py:21-34 | every produced tile lies wholly inside the image and does not overlap the coin's box |
| Tiling.SmallImageHasNoTiles | grain/src/inference.py:21-22 | an image at most 1024 pixels high or wide yields no tile, whatever the coin |
| Tiling.Square2048NoCoin | grain/src/inference.py:20-22 | a 2048×2048 image without a coin yields the single tile (0,0) |
| Tiling.Square2048CentredCoin | grain/src/inference.py:25-32 | a 2048×2048 image with a radius-200 coin at (1024,1024) yields no tile |
| Tiling.Square3072NoCoin | grain/src/inference.py:21-35 | a 3072×3072 image yields (0,0), (0,1024), (1024,0), (1024,1024) in that order |
| Median.Median | grain/src/inference.py:63 | the median of a non-empty column lies between some element and some element of it; a one-element column is its own median |
| Median.MedianOrderIndependent | grain/src/inference.py:63 | rearranging a column does not change its median |
| Median.ColumnMedians | grain/src/inference.py:60-63 | `np.median(axis=0)` of a rectangular matrix has one entry per column, each between that column's extremes; a single row comes back unchanged |
| Median.AggregateOrderIndependent | grain/src/inference.py:60-63 | rearranging the rows leaves every column median unchanged |
| Sorting.Sort | grain/src/sedinet/predict.py:69 | `sorted` returns an ascending rearrangement of its input under any total order |
| Sorting.SortedUnique | grain/src/sedinet/predict.py:69 | two ascending sequences with the same elements and multiplicities are equal, so the sorted result is determined by the input's contents |
| Text.Split | queue/src/main.py:109 | `str.split(sep)` returns one more part than the separator occurs, no part holds the separator, and joining the parts gives back the string |
| Text.SplitJoin | queue/src/main.py:109 | splitting the join of separator-free parts gives the parts back |
| Text.LexLeTotalOrder | grain/src/sedinet/predict.py:69 | Python's string comparison by code points is a total order |
| Text.Decimal | web/src/actions/submission.ts:65 | a non-negative integer renders as a non-empty digit string without a leading zero |
| Text.DecimalRoundTrip | web/src/actions/submission.ts:65 | reading the rendered digits back gives the integer |
| GrainInference.DistributionKeysWellFormed | grain/src/inference.py:74 | the nine keys are "D" followed by each percentile label in turn, all distinct, with "D50" at the position `size_mm` reads |
| GrainInference.CollectPredictions | grain/src/inference.py:49-53 | the collection succeeds iff every tile's estimate succeeds, and then holds each tile's vector in tile order |
| GrainInference.RunSedinetAnalysis | grain/src/inference.py:42-71 | no result iff there are no tiles or any single tile's estimate raises; otherwise each entry lies between its column's extremes and a single tile's vector is returned unchanged |
| GrainInference.AnalysisOrderIndependent | grain/src/inference.py:50-63 | analysing any rearrangement of the tiles gives the same result |
| GrainInference.ScaledDistribution | grain/src/inference.py:92-94 | after n turns of the loop the dictionary has exactly the first n keys, each mapped to its value times `mm_per_pixel` |
| GrainInference.Respond | grain/src/inference.py:92-101 | the response has exactly the keys D10…D90, each the matching aggregate entry scaled, and `size_mm` is the scaled P50, equal to the D50 entry |
| GrainInference.AnalyseImage | grain/src/inference.py:80-101 | a shape other than three dimensions fails the unpacking; an empty tiling fails with "No valid sand tiles"; success iff the analysis succeeds, with the scaled aggregate as the response |
| GrainInference.RunInference | grain/src/inference.py:77-101 | bytes PIL cannot read fail as undecodable with PIL's exception text, and only those; readable images are analysed |
| GrainInference.Message | grain/src/inference.py:80-90 | the exception text behind each failure: PIL's is carried as given, and the service's own failures have non-empty text |
| GrainInference.OwnMessagesTellFailuresApart | grain/src/inference.py:80-90 | two of the service's own failures with the same text are the same failure, except that all shapes of more than three dimensions read alike |
| GrainInference.ScaleIsNotValidated | grain/src/app.py:47-49 | whether the analysis succeeds does not depend on `mm_per_pixel`, so zero or negative scales are accepted |
| GrainInference.SmallImageFails | grain/src/inference.py:83-85 | an image at most 1024 pixels high or wide fails with "No valid sand tiles" |
| GrainInference.OneFailingTileFailsImage | grain/src/inference.py:50-71 | one tile whose estimate raises makes the whole image fail with "SediNet analysis failed" |
| GrainApp.CoinFromRequest | grain/src/app.py:34-45 | no coin iff any of the three coin fields is missing; otherwise the coin carries the three values unchanged |
| GrainApp.Predict | grain/src/app.py:29-57 | success iff inference succeeds, with its response; every failure is a 500 whose detail is "Prediction failed: " followed by the exception's text |
| GrainApp.SmallImageRequestFails | grain/src/app.py:53-57 | a decodable image too small for one tile yields 500 "Prediction failed: No valid sand tiles could be generated from the image." |
| GrainApp.PartialCoinIgnored | grain/src/app.py:34-39 | a request with only some coin fields gets the same answer as one with none |
| GrainApp.SizeIsD50 | grain/src/inference.py:98-100 | on success `size_mm` equals the distribution's D50 entry |
| GrainApp.HealthCheck | grain/src/app.py:23-25 | the health check always answers 200 with status "healthy" |
| CoinInference.InitializeModel | coin/src/inference.py:15-26 | a successful load sets both the flag and the model from the weights path; a failed one clears both |
| CoinInference.IsModelReady | coin/src/inference.py:33-35 | ready only when a model is loaded, so inference can use it; InitializedReadyIffLoaded gives the iff with the load |
| CoinInference.InitializedReadyIffLoaded | coin/src/inference.py:15-35 | after initialisation `is_model_ready` holds iff loading succeeded |
| CoinInference.Trunc | coin/src/inference.py:92-94 | `int()` on a float lies within one below a non-negative value and within one above a negative one, i.e. it truncates toward zero |
| CoinInference.TruncIsTowardZero | coin/src/inference.py:92-94 | 2.7 and -2.7 truncate to 2 and -2, and ±0.5 truncates to 0, which rounding would not all give |
| CoinInference.LabelsTable | coin/src/inference.py:80-81 | the label table knows exactly the classes 0 to 3, with distinct names |
| CoinInference.Segment | coin/src/inference.py:49-62 | no masks is the "No coins segmented" failure; success needs at least one mask and exactly one detected class, and then gives the first mask's points truncated to int32 and the truncated class |
| CoinInference.Detect | coin/src/inference.py:78-95 | success iff segmentation succeeds, the class is in the table, the ellipse fit succeeds and the diameter is non-zero; then `mm_per_pixel × diameter = 24.26`, the scale is positive for positive axes, the label comes from the table and the centre and radius are truncated |
| CoinInference.RunInference | coin/src/inference.py:65-184 | a model that is not ready gives 503 "Model not ready for inference", and only then; a ready model succeeds iff detection does, and every other failure is a 500 with the detection-error prefix |
| CoinInference.FailureText | coin/src/inference.py:179-184 | the text after the 500 prefix: a foreign exception's text is carried unchanged, the model's own failures have non-empty text, and an unknown class reads back as its index |
| CoinInference.NotReadyIgnoresDetection | coin/src/inference.py:69-72 | when the model is not ready the answer does not depend on the image, the segmenter or the fitter |
| CoinInference.NoCoinIsServerError | coin/src/inference.py:179-184 | YOLO finding no coin yields 500 with detail "Internal server error during YOLO detection: 400: No coins segmented by YOLO." |
| CoinInference.OnlyFirstMaskUsed | coin/src/inference.py:57-58 | two segmentations that agree on the first mask and the classes give the same detection |
| CoinInference.WorkedExample | coin/src/inference.py:85-94 | a 200-pixel circle centred at (512.9, 300.4) of class 3 gives 0.1213 mm per pixel, "₹10", centre (512, 300) and radius 100 |
| SedinetConfig.Lookup | grain/src/sedinet/predict.py:28-33 | `config[key]` has a value iff the key is present, and then it is that key's entry |
| SedinetConfig.VariableKeys | grain/src/sedinet/predict.py:45-68 | the comprehension keeps exactly the keys that start with no reserved prefix, and repeats none if the keys are distinct |
| SedinetConfig.FirstMissing | grain/src/sedinet/predict.py:28-33 | reports the first required key, in reading order, that is missing, and nothing iff all are present |
| SedinetConfig.SortedVariables | grain/src/sedinet/predict.py:45-69 | `vars` is sorted ascending, repetition-free, and holds exactly the config keys no reserved prefix starts |
| SedinetConfig.LoadConfig | grain/src/sedinet/predict.py:24-76 | fails with the first missing required key iff one is missing; otherwise returns the sorted variable keys and the configured greyscale, dropout and scale values |
| SedinetConfig.GreyscaleFallbackUnreachable | grain/src/sedinet/predict.py:33-43 | a successful load always has "greyscale", so the "true" fallback never applies |
| SedinetConfig.RequiredKeysAreExcluded | grain/src/sedinet/predict.py:28-65 | each required key starts with a reserved prefix, so none is ever a variable |
| SedinetConfig.PrefixMatching | grain/src/sedinet/predict.py:48-66 | there are sixteen prefixes; "NUM_EPOCHS" and "scale_x" are excluded by prefix and "P50" is kept |
| SedinetConfig.VarsIgnoreKeyOrder | grain/src/sedinet/predict.py:28-69 | two configurations with the same keys in any file order both load or both fail, and give the same `vars` |
| Worker.StartWorker | queue/src/main.py:12-90 | exit status 1 iff a set VISIBILITY_TIMEOUT is text `int()` rejects, or the connection string or queue name is unset or empty, or the queue client rejects the connection string; otherwise a watch of that queue asking for one message per page, with the parsed timeout and the default endpoints for unset settings |
| Worker.PythonIntReadsDecimal | queue/src/main.py:18 | `int()` reads every integer's decimal text, with or without a minus sign, back as that integer |
| Worker.PythonIntExamples | queue/src/main.py:18 | the default "60" reads as 60, while "" and "60s" raise |
| Worker.DefaultTimeoutStarts | queue/src/main.py:18-90 | with the timeout unset, the worker starts iff both Azure settings are set and non-empty and the queue client accepts the connection string, and then polls with 60 seconds |
| Worker.PollRound | queue/src/main.py:101-156 | handling the messages of one receive request in turn removes one copy of each message whose job deleted it and leaves every other message's count unchanged |
| Worker.StartedWorkerDrainsOnePerPage | queue/src/main.py:97-101 | a started worker's pages hold at most one message each, so `for msg in messages` yields the message of each page up to the first empty one, in order: as many jobs as non-empty pages |
| Worker.ParseBody | queue/src/main.py:109 | the body parses iff it holds exactly one comma; the parts are the text before and after it, possibly empty, and joined by a comma they give the body |
| Worker.ParseBodyRoundTrip | queue/src/main.py:109 | an id and a URL without commas are recovered from `id,url` |
| Worker.JsonOf | queue/src/main.py:27-28 | a reply yields JSON iff the connection worked, the status is below 400 or at least 600, and the body is JSON |
| Worker.DistributionEntry | queue/src/main.py:59-66 | a present key gives its value and a missing one the empty string |
| Worker.BuildPayload | queue/src/main.py:54-67 | the payload has exactly the eleven keys id…D50mean in order, the id, scale and size as given, and each distribution entry or "" |
| Worker.PayloadOmitsD84 | queue/src/main.py:55-67 | no payload key is "D84" and no key repeats |
| Worker.CoinValues | queue/src/main.py:125-131 | the four coin values are read iff all four fields are present, each being its field's value |
| Worker.DistributionOf | queue/src/main.py:141 | a missing `distribution_mm` defaults to the empty dictionary; a present one must be an object and is used as is |
| Worker.FinishJob | queue/src/main.py:145-148 | the delete is the last call, and the job counts as deleted iff it succeeds |
| Worker.RecordResult | queue/src/main.py:135-143 | the database call is made iff `size_mm` and the distribution can be read (both directions are in the contract), and it carries the parsed id, the coin's scale text, the size text and the distribution |
| Worker.GrainStage | queue/src/main.py:121-133 | the grain call carries the image and `str()` of the four coin values in order, and the job continues only on a JSON reply |
| Worker.CoinStage | queue/src/main.py:116-119 | the coin call carries the downloaded image, and the job continues only on a JSON reply that has all four coin fields |
| Worker.ProcessMessage | queue/src/main.py:104-158 | calls happen in pipeline order, each stage at most once; deleted iff nothing failed; a failure at a stage leaves exactly the calls up to and including that stage's own call; a parse failure happens iff the body does not parse; the first call downloads the parsed URL |
| Worker.DeletedIffEveryStageSucceeds | queue/src/main.py:104-148 | the message is deleted iff the body parses, the download returns, the coin and grain services answer JSON with the fields read, the database accepts the payload and the delete succeeds |
| Worker.StagesFeedForward | queue/src/main.py:114-142 | each call receives the previous step's output: the downloaded bytes, `str()` of the coin values, the parsed id and the coin's scale |
| Worker.MalformedBodyIsRetried | queue/src/main.py:150-158 | a body without exactly one comma makes no call and is not deleted |
| Worker.DownloadStatusIgnored | queue/src/main.py:114-118 | whatever status the download returns, its bytes go to the coin service |
| Worker.HandleReceived | queue/src/main.py:145-158 | a deleted message leaves the queue once; a failed one stays; no other message is affected |
| Worker.FailedJobStaysQueued | queue/src/main.py:150-158 | a message whose job failed is still in the queue afterwards |
| WebDb.EmptyIsValid | web/db/config.ts:3-29 | the empty database satisfies the key, uniqueness and reference constraints |
| WebDb.InsertSubmission | web/db/config.ts:3-13 | inserting appends one row with a fresh key and no processing data, and keeps the constraints |
| WebDb.InsertProcessed | web/db/config.ts:15-18 | a Processed row is rejected iff its submission does not exist or already has one; otherwise it is appended with a fresh key and the constraints hold |
| WebDb.MarkProcessed | web/src/actions/processed.ts:43-48 | the update sets time and size on exactly the rows with the id and leaves every other row as it was |
| WebDb.MarkProcessedKeepsValid | web/db/config.ts:5-18 | the update keeps every constraint |
| WebDb.FirstIsOnly | web/db/config.ts:5 | since keys are unique, a row with a key is the only one with it |
| WebSubmission.CreateSubmission | web/src/actions/submission.ts:7-68 | an unaccepted MIME type is BAD_REQUEST with no upload and no change; a failed upload or one without a URL is INTERNAL_SERVER_ERROR with no row; otherwise exactly one row with the URL and the coordinates is appended and then its job is enqueued; constraints are kept |
| WebSubmission.JobMessage | web/src/actions/submission.ts:65 | the job text is the id's digits, which hold no comma, then a comma, then the URL; Handoff.JobMessageParses turns this into the worker's round trip |
| WebSubmission.CreateKeepsExistingRows | web/src/actions/submission.ts:48-56 | existing submissions are never changed and the Processed table never is |
| WebSubmission.EnqueuedOnlyAfterInsert | web/src/actions/submission.ts:48-65 | an enqueued job names a row that the call added, with that row's id and image URL |
| WebSubmission.GetSubmission | web/src/actions/submission.ts:71-91 | NOT_FOUND "Submission not found" iff no row has the id; otherwise the first row with it |
| WebSubmission.GetAllSubmissions | web/src/actions/submission.ts:93-102 | every Submission row in table order; CreatedSubmissionListed shows a create appends exactly the new row to it |
| WebSubmission.CreatedSubmissionReadable | web/src/actions/submission.ts:48-90 | after a successful upload the new row is what `getSubmission` returns for its id |
| WebSubmission.CreatedSubmissionListed | web/src/actions/submission.ts:93-102 | after a successful submission the listing is the previous rows followed by the new one |
| WebProcessed.ParseProcessedInput | web/src/actions/processed.ts:6-19 | the form is accepted iff id, size, D90 and D50mean are numbers, scale is text and each of D10…D75 is absent or a number; the input then carries those values |
| WebProcessed.ParseFormOf | web/src/actions/processed.ts:6-19 | the form a client builds from any valid input (numbers as numbers, scale as text, absent optional D-values left out) is accepted and yields that input back |
| WebProcessed.AcceptedFormIsFormOf | web/src/actions/processed.ts:6-19 | an accepted form agrees with the form of the input it yields on every field of the schema, so validation loses nothing but fields outside the schema |
| WebProcessed.KeyOf | web/src/actions/processed.ts:21 | a JSON number denotes a table key iff it equals that non-negative integer |
| WebProcessed.MatchIffKnown | web/src/actions/processed.ts:21-23 | comparing the id with the keys finds a row iff the id denotes an existing key |
| WebProcessed.RowFor | web/src/actions/processed.ts:30-41 | the inserted row names the submission key and carries the scale and every D-value of the input, D90 and D50mean always present |
| WebProcessed.CreateProcessed | web/src/actions/processed.ts:20-51 | unknown id: NOT_FOUND and no change; a submission that already has a result: the insert throws and nothing changes; otherwise one Processed row with the input's values is appended, then that submission alone gets the time and size; constraints are kept |
| WebProcessed.CreatedHasResult | web/src/actions/processed.ts:30-41 | after a successful create the submission has a Processed row |
| WebProcessed.SecondDeliveryChangesNothing | web/src/actions/processed.ts:30-48 | delivering the same result a second time throws and changes nothing |
| WebProcessed.GetProcessed | web/src/actions/processed.ts:54-74 | NOT_FOUND "Processed data not found" iff no row has the submission id; otherwise the first such row |
| WebProcessed.StoredResultReadable | web/src/actions/processed.ts:30-72 | after a successful create `getProcessed` returns the stored row, and `getSubmission` shows the processing time and size |
| Handoff.JobMessageParses | web/src/actions/submission.ts:65 | the worker parses the job `${id},${url}` iff the URL has no comma, and then recovers the decimal id and the URL |
| Handoff.ForwardedIdIsKey | queue/src/main.py:109 | the id text the worker recovers reads back as the submission key |

## Left out

- Image decoding, YOLO, `cv2.fitEllipse`, `cv2.imdecode` and the SediNet network. They are foreign libraries and are opaque function parameters. PIL's error text is carried as given.
- `predict_grain_size`'s internals are left out: model construction, weight loading, the ensemble, the scaler, the bias correction and the GPU setup. Each tile's estimate is an opaque function that may fail.
- Transport is not modelled: requests, FastAPI, CORS, uvicorn, the Azure queue client with its paging, Cloudinary and the astro:db engine. Each call is an abstract outcome, the Azure library's parsing of the connection string is a parameter that accepts or rejects it, and the tables are sequences of rows.
- The unbounded repetition of the `while True` loop, `time.sleep`, the outer loop's exception handler and the visibility-timeout expiry are not modelled. One receive request is modelled: its pages are drained until one comes back empty (`Drained`), and their messages are handled in turn (`PollRound`). The queue is assumed to hand over no message twice within one request, and a message that is not deleted simply stays in the queue.
- `int()` on VISIBILITY_TIMEOUT accepts only ASCII digits and ASCII whitespace in this model; Python also accepts other Unicode digits and spaces.
- Floating point is not modelled: `mm_per_pixel`, the medians and the scaling are exact reals.
- `str()` of Python values and the text of foreign exceptions are opaque or carried as given.
- The JavaScript number-to-text conversion inside Astro's form coercion is abstracted: a form field arrives as a number or as text. A field sent as the empty string counts as absent, because Astro turns it into undefined or null. The worker sends "" for a missing D-value, so a missing D10–D75 is stored as absent, while a missing D90 or D50mean fails the schema and the database call.
- The `results.length === 0` branch of `createSubmission` is absent: an insert with `.returning()` always returns the row it inserted. A throwing enqueue after the insert is an unguarded failure, and the row remains.
- The `except HTTPException: raise` branch of `predict` is absent because no modelled failure raises an HTTPException.
- `coin/src/app.py`, `grain/src/helpers.py` beyond its decoding, `grain/src/logger.py` and `grain/src/main.py` are not part of this model. Neither are the web route shims, `web/src/lib/*.ts`, `web/astro.config.mjs` and the map component types. They only wrap or configure the modelled operations.
- Logging and the unused `numclass` and `mode` of `load_config` are left out. Reading the configuration file is left out too: `LoadConfig` takes the parsed object.
- Median.Median: its contract states the bounds and order-independence of the median, not numpy's exact middle-value formula.
