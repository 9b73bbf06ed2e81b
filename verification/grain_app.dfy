/** The grain service's HTTP layer (grain/src/app.py and the records of
    grain/src/models.py): shape the coin from the form fields, run the
    analysis, and turn every failure into a 500 "Prediction failed: …". */
module GrainApp {
  import opened Base
  import opened Tiling
  import opened GrainInference

  /** The `/predict` form; a coin field the client leaves out is `None`. */
  datatype PredictionRequest = PredictionRequest(
    mmPerPixel: real,
    coinCenterX: Option<int>,
    coinCenterY: Option<int>,
    coinRadiusPx: Option<int>,
    image: Bytes)

  datatype HttpError = HttpError(status: nat, detail: string)

  const DetailPrefix: string := "Prediction failed: "

  /** The coin the request describes: none as soon as one field is missing,
      otherwise the three values unchanged. */
  function CoinFromRequest(req: PredictionRequest): (coin: Option<Coin>)
    ensures coin.None? <==> req.coinCenterX.None? || req.coinCenterY.None? || req.coinRadiusPx.None?
    ensures coin.Some? ==>
      && coin.value.centerX == req.coinCenterX.value
      && coin.value.centerY == req.coinCenterY.value
      && coin.value.radiusPx == req.coinRadiusPx.value
  {
    if req.coinCenterX.None? || req.coinCenterY.None? || req.coinRadiusPx.None? then None
    else Some(Coin(req.coinCenterX.value, req.coinCenterY.value, req.coinRadiusPx.value))
  }

  /** `predict(request)`: the analysis of the uploaded image with the
      request's coin and the request's scale, passed on unvalidated; any
      failure is a 500 whose detail is the prefix and the failure's text. */
  function Predict(req: PredictionRequest, decode: Decoder, estimate: Estimator)
    : (r: Result<PredictionResponse, HttpError>)
    ensures r.Ok? <==> RunInference(req.image, CoinFromRequest(req), req.mmPerPixel, decode, estimate).Ok?
    ensures r.Ok? ==> r.value == RunInference(req.image, CoinFromRequest(req), req.mmPerPixel, decode, estimate).value
    ensures r.Err? ==> r.error.status == 500 && DetailPrefix <= r.error.detail
    ensures r.Err? ==>
      r.error.detail == DetailPrefix + Message(RunInference(req.image, CoinFromRequest(req), req.mmPerPixel, decode, estimate).error)
  {
    match RunInference(req.image, CoinFromRequest(req), req.mmPerPixel, decode, estimate)
    case Ok(resp) => Ok(resp)
    case Err(e) => Err(HttpError(500, DetailPrefix + Message(e)))
  }

  /** A request whose image is too small for one tile fails with the
      "No valid sand tiles" detail, with or without a coin. */
  lemma SmallImageRequestFails(req: PredictionRequest, decode: Decoder, estimate: Estimator)
    requires decode(req.image).Ok?
    requires |decode(req.image).value.shape| == 3
    requires decode(req.image).value.shape[0] <= TileSize || decode(req.image).value.shape[1] <= TileSize
    ensures Predict(req, decode, estimate)
         == Err(HttpError(500, DetailPrefix + Message(NoValidTiles)))
  {
    SmallImageFails(decode(req.image).value, CoinFromRequest(req), req.mmPerPixel, estimate);
  }

  /** A coin given only partly is ignored: the request is analysed exactly
      as if no coin field had been sent. */
  lemma PartialCoinIgnored(req: PredictionRequest, decode: Decoder, estimate: Estimator)
    requires req.coinCenterX.None? || req.coinCenterY.None? || req.coinRadiusPx.None?
    ensures Predict(req, decode, estimate)
         == Predict(req.(coinCenterX := None, coinCenterY := None, coinRadiusPx := None), decode, estimate)
  {
  }

  /** On success `size_mm` is the "D50" entry of the distribution. */
  lemma SizeIsD50(req: PredictionRequest, decode: Decoder, estimate: Estimator)
    ensures Predict(req, decode, estimate).Ok? ==>
      && "D50" in Predict(req, decode, estimate).value.distributionMm
      && Predict(req, decode, estimate).value.sizeMm == Predict(req, decode, estimate).value.distributionMm["D50"]
  {
  }

  /** `health_check()`: always 200 with `{"status": "healthy"}`. */
  function HealthCheck(): (r: (nat, Json))
    ensures r.0 == 200
    ensures Field(r.1, "status") == Some(JStr("healthy"))
  {
    (200, JObj(map["status" := JStr("healthy")]))
  }
}
