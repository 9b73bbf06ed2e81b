/** The coin service's inference (coin/src/inference.py and the records of
    coin/src/models.py): a readiness check, then segmentation by YOLO, the
    class label, an ellipse fitted to the first mask's outline, and the
    scale that makes the fitted diameter 24.26 mm.

    YOLO and `cv2.fitEllipse` are opaque functions given as parameters. */
module CoinInference {
  import opened Base
  import Text

  const ModelPath: string := "/app/src/best.pt"

  /** Diameter of the reference coin, in millimetres. */
  const CoinDiameterMm: real := 24.26

  datatype YoloModel = YoloModel(weights: string)

  /** The module globals `model_yolo` and `_model_ready`. */
  datatype ModelState = ModelState(ready: bool, model: Option<YoloModel>)

  /** `_initialize_model()`: on success both are set, on failure both are
      cleared. */
  function InitializeModel(loadSucceeds: bool): (s: ModelState)
    ensures s.ready == loadSucceeds
    ensures s.model.Some? == loadSucceeds
    ensures s.model.Some? ==> s.model.value.weights == ModelPath
  {
    if loadSucceeds then ModelState(true, Some(YoloModel(ModelPath)))
    else ModelState(false, None)
  }

  /** `is_model_ready()`: the flag is set and a model is loaded, so
      inference may use the model. */
  function IsModelReady(s: ModelState): (ready: bool)
    ensures ready ==> s.model.Some?
  {
    s.ready && s.model.Some?
  }

  /** After initialisation the model is ready exactly when loading worked. */
  lemma InitializedReadyIffLoaded(loadSucceeds: bool)
    ensures IsModelReady(InitializeModel(loadSucceeds)) <==> loadSucceeds
  {
  }

  /** Python's `int()` on a float: truncation toward zero. */
  function Trunc(x: real): (n: int)
    ensures 0.0 <= x ==> n as real <= x < n as real + 1.0
    ensures x < 0.0 ==> n as real - 1.0 < x <= n as real
  {
    if 0.0 <= x then x.Floor else -((-x).Floor)
  }

  /** Truncation is not rounding: it moves toward zero on both sides. */
  lemma TruncIsTowardZero()
    ensures Trunc(2.7) == 2 && Trunc(-2.7) == -2
    ensures Trunc(0.5) == 0 && Trunc(-0.5) == 0
  {
    assert (2.7).Floor == 2 && (0.5).Floor == 0;
  }

  /** A mask outline point as YOLO gives it, in pixels. */
  datatype Point = Point(x: real, y: real)
  type Mask = seq<Point>

  /** The same point after `np.array(segment, dtype=np.int32)`. */
  datatype PixelPoint = PixelPoint(x: int, y: int)

  /** What the YOLO call produced: it raised, or gave the masks (`None` when
      there are none at all) and the tensor of detected class indices. */
  datatype YoloResult =
    | YoloRaised(text: string)
    | Detected(masks: Option<seq<Mask>>, classes: seq<real>)

  /** `cv2.fitEllipse(points)`: centre, axis lengths and angle, or the text
      of the error OpenCV raises (as it does for fewer than five points). */
  datatype Ellipse = Ellipse(centerX: real, centerY: real, width: real, height: real, angle: real)
  type EllipseFitter = seq<PixelPoint> -> Result<Ellipse, string>

  datatype CvImage = CvImage(pixels: Bytes)
  type Segmenter = (YoloModel, CvImage) -> YoloResult

  datatype CoinResponse = CoinResponse(
    mmPerPixel: real,
    coinLabel: string,
    coinCenterX: int,
    coinCenterY: int,
    coinRadiusPx: int)

  datatype HttpError = HttpError(status: nat, detail: string)

  /** Why detection failed inside the `try`. */
  datatype DetectionFailure =
    | SegmenterRaised(text: string)
    | NoCoinSegmented
    | NotOneDetection(count: nat)
    | UnknownClass(index: int)
    | FitRaised(text: string)
    | ZeroDiameter

  /** The class-label table. */
  const Labels: map<int, string> := map[0 := "\U{20B9}1", 1 := "\U{20B9}2", 2 := "\U{20B9}5", 3 := "\U{20B9}10"]

  /** The table knows exactly the classes 0 to 3, and names each differently. */
  lemma LabelsTable()
    ensures forall i :: i in Labels <==> 0 <= i <= 3
    ensures forall i, j :: i in Labels && j in Labels && i != j ==> Labels[i] != Labels[j]
  {
  }

  /** `segment(image)` once YOLO has run: the first mask's outline in whole
      pixels and the single detected class, or why not. */
  function Segment(result: YoloResult): (r: Result<(seq<PixelPoint>, int), DetectionFailure>)
    ensures result.YoloRaised? ==> r == Err(SegmenterRaised(result.text))
    ensures result.Detected? && (result.masks.None? || |result.masks.value| == 0) ==> r == Err(NoCoinSegmented)
    ensures r.Ok? <==> result.Detected? && result.masks.Some? && |result.masks.value| > 0 && |result.classes| == 1
    ensures r.Ok? ==>
      && |r.value.0| == |result.masks.value[0]|
      && (forall k :: 0 <= k < |r.value.0| ==>
            r.value.0[k] == PixelPoint(Trunc(result.masks.value[0][k].x), Trunc(result.masks.value[0][k].y)))
      && r.value.1 == Trunc(result.classes[0])
  {
    match result
    case YoloRaised(text) => Err(SegmenterRaised(text))
    case Detected(masks, classes) =>
      if masks.None? || |masks.value| == 0 then Err(NoCoinSegmented)
      else
        var points := seq(|masks.value[0]|, k requires 0 <= k < |masks.value[0]| =>
          PixelPoint(Trunc(masks.value[0][k].x), Trunc(masks.value[0][k].y)));
        if |classes| != 1 then Err(NotOneDetection(|classes|))
        else Ok((points, Trunc(classes[0])))
  }

  /** The mean of the ellipse's two axes. */
  function Diameter(e: Ellipse): real {
    (e.width + e.height) / 2.0
  }

  /** The text `str(e)` of each failure, as far as this model knows it. */
  function FailureText(f: DetectionFailure): (t: string)
    ensures f.SegmenterRaised? || f.FitRaised? ==> t == f.text
    ensures !f.SegmenterRaised? && !f.FitRaised? ==> |t| > 0
    ensures f.UnknownClass? && f.index >= 0 ==> Text.AllDigits(t) && Text.DecimalValue(t) == f.index
  {
    match f
    case SegmenterRaised(text) => text
    case NoCoinSegmented => "400: No coins segmented by YOLO."
    case NotOneDetection(n) => "a Tensor with " + Text.Decimal(n) + " elements cannot be converted to Scalar"
    case UnknownClass(i) =>
      if i < 0 then "-" + Text.Decimal(-i)
      else Text.DecimalRoundTrip(i); Text.Decimal(i)
    case FitRaised(text) => text
    case ZeroDiameter => "float division by zero"
  }

  const NotReadyDetail: string := "Model not ready for inference"
  const FailureDetailPrefix: string := "Internal server error during YOLO detection: "

  /** Everything inside the `try`: segment, look up the label, fit the
      ellipse, and compute the scale. */
  function Detect(model: YoloModel, image: CvImage, yolo: Segmenter, fit: EllipseFitter)
    : (r: Result<CoinResponse, DetectionFailure>)
    ensures r.Ok? <==>
      && Segment(yolo(model, image)).Ok?
      && Segment(yolo(model, image)).value.1 in Labels
      && fit(Segment(yolo(model, image)).value.0).Ok?
      && Diameter(fit(Segment(yolo(model, image)).value.0).value) != 0.0
    ensures r.Ok? ==>
      var e := fit(Segment(yolo(model, image)).value.0).value;
      && r.value.mmPerPixel * Diameter(e) == CoinDiameterMm
      && (e.width > 0.0 && e.height > 0.0 ==> r.value.mmPerPixel > 0.0)
      && r.value.coinLabel == Labels[Segment(yolo(model, image)).value.1]
      && r.value.coinCenterX == Trunc(e.centerX)
      && r.value.coinCenterY == Trunc(e.centerY)
      && r.value.coinRadiusPx == Trunc(Diameter(e) / 2.0)
  {
    match Segment(yolo(model, image))
    case Err(f) => Err(f)
    case Ok((points, classIndex)) =>
      if classIndex !in Labels then Err(UnknownClass(classIndex))
      else
        match fit(points)
        case Err(text) => Err(FitRaised(text))
        case Ok(e) =>
          var diameter := Diameter(e);
          if diameter == 0.0 then Err(ZeroDiameter)
          else
            var mm := CoinDiameterMm / diameter;
            assert e.width > 0.0 && e.height > 0.0 ==> diameter > 0.0 && mm > 0.0;
            Ok(CoinResponse(mm, Labels[classIndex], Trunc(e.centerX), Trunc(e.centerY), Trunc(diameter / 2.0)))
  }

  /** `run_inference(input_image)`: 503 when the model is not ready, before
      YOLO runs; every failure after that, the segmenter's own 400
      included, is a 500 carrying the failure's text. */
  function RunInference(state: ModelState, image: CvImage, yolo: Segmenter, fit: EllipseFitter)
    : (r: Result<CoinResponse, HttpError>)
    ensures !IsModelReady(state) <==> r == Err(HttpError(503, NotReadyDetail))
    ensures IsModelReady(state) && r.Err? ==> r.error.status == 500 && FailureDetailPrefix <= r.error.detail
    ensures IsModelReady(state) ==>
      (r.Ok? <==> Detect(state.model.value, image, yolo, fit).Ok?)
    ensures IsModelReady(state) && r.Ok? ==> r.value == Detect(state.model.value, image, yolo, fit).value
  {
    if !IsModelReady(state) then Err(HttpError(503, NotReadyDetail))
    else
      match Detect(state.model.value, image, yolo, fit)
      case Ok(resp) => Ok(resp)
      case Err(f) => Err(HttpError(500, FailureDetailPrefix + FailureText(f)))
  }

  /** A model that is not ready answers 503 whatever the image and whatever
      YOLO or OpenCV would have done. */
  lemma NotReadyIgnoresDetection(state: ModelState, image1: CvImage, image2: CvImage,
                                 yolo1: Segmenter, yolo2: Segmenter, fit1: EllipseFitter, fit2: EllipseFitter)
    requires !IsModelReady(state)
    ensures RunInference(state, image1, yolo1, fit1) == RunInference(state, image2, yolo2, fit2)
  {
  }

  /** YOLO finding no coin is reported as a 500, not as the 400 that
      `segment` raises. */
  lemma NoCoinIsServerError(state: ModelState, image: CvImage, yolo: Segmenter, fit: EllipseFitter)
    requires IsModelReady(state)
    requires yolo(state.model.value, image).Detected?
    requires yolo(state.model.value, image).masks.None? || |yolo(state.model.value, image).masks.value| == 0
    ensures RunInference(state, image, yolo, fit)
         == Err(HttpError(500, FailureDetailPrefix + "400: No coins segmented by YOLO."))
  {
  }

  /** Only the first mask shapes the ellipse: masks after it never matter.
      YOLO gives one mask per detected box and success needs exactly one
      class, so a successful segmentation has one mask anyway; the model's
      segmentation result lets the two counts differ, which is what makes
      this lemma say more than that. */
  lemma OnlyFirstMaskUsed(model: YoloModel, image: CvImage, yolo1: Segmenter, yolo2: Segmenter, fit: EllipseFitter)
    requires yolo1(model, image).Detected? && yolo2(model, image).Detected?
    requires yolo1(model, image).classes == yolo2(model, image).classes
    requires yolo1(model, image).masks.Some? && yolo2(model, image).masks.Some?
    requires |yolo1(model, image).masks.value| > 0 && |yolo2(model, image).masks.value| > 0
    requires yolo1(model, image).masks.value[0] == yolo2(model, image).masks.value[0]
    ensures Detect(model, image, yolo1, fit) == Detect(model, image, yolo2, fit)
  {
  }

  /** A fitted circle 200 pixels across, centred at (512.9, 300.4), gives a
      radius of 100, a centre of (512, 300) and 0.1213 mm per pixel. */
  lemma WorkedExample(model: YoloModel, image: CvImage, yolo: Segmenter, fit: EllipseFitter)
    requires yolo(model, image).Detected?
    requires yolo(model, image).masks.Some? && |yolo(model, image).masks.value| > 0
    requires yolo(model, image).classes == [3.0]
    requires fit(Segment(yolo(model, image)).value.0) == Ok(Ellipse(512.9, 300.4, 200.0, 200.0, 0.0))
    ensures Detect(model, image, yolo, fit) == Ok(CoinResponse(0.1213, "\U{20B9}10", 512, 300, 100))
  {
    assert Trunc(3.0) == 3;
    assert Trunc(512.9) == 512 && Trunc(300.4) == 300 && Trunc(100.0) == 100;
  }
}
