/** The grain service's analysis (grain/src/inference.py): tile the decoded
    image, ask the SediNet estimator for a nine-value percentile vector per
    tile, take the per-column median, and scale it to millimetres.

    The estimator (`predict_grain_size`) is an opaque function from a tile to
    either a vector or a raised exception (`None`). */
module GrainInference {
  import opened Base
  import opened Tiling
  import Median
  import Sorting
  import Text

  /** `[P10, P16, P25, P50, P50mean, P65, P75, P84, P90]` in pixels. */
  type PercentileVector = v: seq<real> | |v| == 9
    witness [0.0, 0.0, 0.0, 0.0, 0.0, 0.0, 0.0, 0.0, 0.0]

  /** The `percentiles` list, in the estimator's output order. */
  const Percentiles: seq<string> := ["10", "16", "25", "50", "50mean", "65", "75", "84", "90"]

  /** Position of P50 in a percentile vector; `size_mm` is read from it. */
  const MedianIndex: nat := 3

  /** The keys of the distribution, `f"D{perc}"` for each percentile in turn. */
  const DistributionKeys: seq<string> := ["D10", "D16", "D25", "D50", "D50mean", "D65", "D75", "D84", "D90"]

  /** Each key is "D" followed by its percentile label, and no key repeats. */
  lemma DistributionKeysWellFormed()
    ensures |DistributionKeys| == |Percentiles|
    ensures forall i :: 0 <= i < |Percentiles| ==> DistributionKeys[i] == "D" + Percentiles[i]
    ensures Sorting.Distinct(DistributionKeys)
    ensures DistributionKeys[MedianIndex] == "D50"
  {
  }

  /** What the estimator made of one tile: a vector, or `None` if it raised. */
  type Estimator = TileOrigin -> Option<PercentileVector>

  /** The decoded image; only its numpy shape matters to the analysis. */
  datatype DecodedImage = DecodedImage(shape: seq<nat>)

  /** Decodes uploaded bytes as PIL would; the exception's text when PIL raises. */
  type Decoder = Bytes -> Result<DecodedImage, string>

  datatype GrainError =
    | Undecodable(detail: string)        // PIL raised, with this text
    | ShapeNotThreeDimensional(dims: nat) // `h, w, _ = img.shape` fails to unpack
    | NoValidTiles
    | AnalysisFailed

  datatype PredictionResponse = PredictionResponse(sizeMm: real, distributionMm: map<string, real>)

  /** The text of the exception behind each failure. PIL's wording is
      carried as given; the unpacking error names the number of dimensions
      when there are too few; the service's own two failures have their own
      distinct sentences. */
  function Message(e: GrainError): (m: string)
    ensures e.Undecodable? ==> m == e.detail
    ensures !e.Undecodable? ==> |m| > 0
  {
    match e
    case Undecodable(detail) => detail
    case ShapeNotThreeDimensional(dims) =>
      if dims < 3 then "not enough values to unpack (expected 3, got " + Text.Decimal(dims) + ")"
      else "too many values to unpack (expected 3)"
    case NoValidTiles => "No valid sand tiles could be generated from the image."
    case AnalysisFailed => "SediNet analysis failed to produce results."
  }

  /** The service's own failures can be told apart by their text, except
      that every shape with more than three dimensions reads alike. */
  lemma {:induction false} OwnMessagesTellFailuresApart(e1: GrainError, e2: GrainError)
    ensures !e1.Undecodable? && !e2.Undecodable? && Message(e1) == Message(e2) ==>
      e1 == e2 || (e1.ShapeNotThreeDimensional? && e2.ShapeNotThreeDimensional? && e1.dims >= 3 && e2.dims >= 3)
  {
    if !e1.Undecodable? && !e2.Undecodable? && Message(e1) == Message(e2) {
      var m := Message(e1);
      assert m[0] == Message(e2)[0];
      if e1.ShapeNotThreeDimensional? && e2.ShapeNotThreeDimensional? && e1.dims < 3 && e2.dims < 3 {
        var prefix := "not enough values to unpack (expected 3, got ";
        var d1, d2 := Text.Decimal(e1.dims), Text.Decimal(e2.dims);
        assert m == prefix + d1 + ")" && m == prefix + d2 + ")";
        assert d1 == m[|prefix|..|m| - 1] == d2;
        Text.DecimalRoundTrip(e1.dims);
        Text.DecimalRoundTrip(e2.dims);
      }
    }
  }

  /** The loop collecting `predict_grain_size(tile)` for every tile; the first
      exception abandons the whole collection. */
  function CollectPredictions(tiles: seq<TileOrigin>, estimate: Estimator): (r: Option<seq<PercentileVector>>)
    ensures r.Some? <==> forall i :: 0 <= i < |tiles| ==> estimate(tiles[i]).Some?
    ensures r.Some? ==> |r.value| == |tiles|
    ensures r.Some? ==> forall i :: 0 <= i < |tiles| ==> r.value[i] == estimate(tiles[i]).value
  {
    if |tiles| == 0 then Some([])
    else
      match estimate(tiles[0])
      case None => None
      case Some(v) =>
        match CollectPredictions(tiles[1..], estimate)
        case None => None
        case Some(rest) => Some([v] + rest)
  }

  /** `run_sedinet_analysis(tiles)`: `None` when there are no tiles or when
      any single tile fails; otherwise the per-column median of the vectors,
      each entry lying between that column's extremes over the tiles, and a
      lone tile's vector returned unchanged. */
  function RunSedinetAnalysis(tiles: seq<TileOrigin>, estimate: Estimator): (r: Option<PercentileVector>)
    ensures r.Some? <==> |tiles| > 0 && forall i :: 0 <= i < |tiles| ==> estimate(tiles[i]).Some?
    ensures r.Some? ==> WithinEstimates(tiles, estimate, r.value)
    ensures r.Some? && |tiles| == 1 ==> r.value == estimate(tiles[0]).value
  {
    match CollectPredictions(tiles, estimate)
    case None => None
    case Some(rows) =>
      if |rows| == 0 then None
      else
        var agg := Median.ColumnMedians(rows, 9);
        AggregateWithinTiles(tiles, estimate, rows, agg);
        Some(agg)
  }

  /** `x` lies between the smallest and the largest `k`-th value the
      estimator gave for the tiles. */
  ghost predicate WithinColumn(tiles: seq<TileOrigin>, estimate: Estimator, k: nat, x: real)
    requires forall i :: 0 <= i < |tiles| ==> estimate(tiles[i]).Some?
    requires k < 9
  {
    && (exists i :: 0 <= i < |tiles| && estimate(tiles[i]).value[k] <= x)
    && (exists j :: 0 <= j < |tiles| && x <= estimate(tiles[j]).value[k])
  }

  /** Every entry of `v` lies within its column of estimates. */
  ghost predicate WithinEstimates(tiles: seq<TileOrigin>, estimate: Estimator, v: seq<real>)
    requires forall i :: 0 <= i < |tiles| ==> estimate(tiles[i]).Some?
    requires |v| == 9
  {
    forall k :: 0 <= k < 9 ==> WithinColumn(tiles, estimate, k, v[k])
  }

  lemma AggregateWithinTiles(tiles: seq<TileOrigin>, estimate: Estimator, rows: seq<PercentileVector>, agg: seq<real>)
    requires |rows| == |tiles| > 0
    requires forall i :: 0 <= i < |tiles| ==> estimate(tiles[i]) == Some(rows[i])
    requires |agg| == 9
    requires forall k :: 0 <= k < 9 ==>
      (exists i :: 0 <= i < |rows| && rows[i][k] <= agg[k])
      && (exists j :: 0 <= j < |rows| && agg[k] <= rows[j][k])
    ensures WithinEstimates(tiles, estimate, agg)
  {
    forall k | 0 <= k < 9
      ensures WithinColumn(tiles, estimate, k, agg[k])
    {
      var i :| 0 <= i < |rows| && rows[i][k] <= agg[k];
      var j :| 0 <= j < |rows| && agg[k] <= rows[j][k];
      assert estimate(tiles[i]).value[k] <= agg[k];
      assert agg[k] <= estimate(tiles[j]).value[k];
    }
  }

  /** The vectors that are collected are the estimator's values, tile by tile. */
  lemma {:induction false} CollectedAreMapped(tiles: seq<TileOrigin>, estimate: Estimator)
    requires CollectPredictions(tiles, estimate).Some?
    ensures CollectPredictions(tiles, estimate).value
         == Sorting.MapSeq(tiles, (t: TileOrigin) => estimate(t).GetOr(PercentileVector0()))
    decreases |tiles|
  {
    if |tiles| > 0 {
      CollectedAreMapped(tiles[1..], estimate);
    }
  }

  function PercentileVector0(): PercentileVector {
    [0.0, 0.0, 0.0, 0.0, 0.0, 0.0, 0.0, 0.0, 0.0]
  }

  /** The aggregate does not depend on the order in which tiles are analysed. */
  lemma AnalysisOrderIndependent(a: seq<TileOrigin>, b: seq<TileOrigin>, estimate: Estimator)
    requires multiset(a) == multiset(b)
    ensures RunSedinetAnalysis(a, estimate) == RunSedinetAnalysis(b, estimate)
  {
    assert |a| == |multiset(a)| == |multiset(b)| == |b|;
    var ra, rb := RunSedinetAnalysis(a, estimate), RunSedinetAnalysis(b, estimate);
    assert forall i :: 0 <= i < |b| ==> b[i] in multiset(a);
    assert forall i :: 0 <= i < |a| ==> a[i] in multiset(b);
    if ra.Some? && rb.Some? {
      var f := (t: TileOrigin) => estimate(t).GetOr(PercentileVector0());
      CollectedAreMapped(a, estimate);
      CollectedAreMapped(b, estimate);
      var rowsA, rowsB := CollectPredictions(a, estimate).value, CollectPredictions(b, estimate).value;
      Sorting.MapPermutation(a, b, f);
      var ra' : seq<seq<real>>, rb' : seq<seq<real>> := rowsA, rowsB;
      assert multiset(ra') == multiset(rb');
      Median.AggregateOrderIndependent(ra', rb', 9);
    }
  }

  /** The `results` dictionary after the first `n` turns of its loop: each
      of the first `n` keys maps to its value times `mm_per_pixel`, and there
      is no other key. */
  function ScaledDistribution(keys: seq<string>, values: seq<real>, mmPerPixel: real, n: nat): (d: map<string, real>)
    requires |keys| == |values| && n <= |keys|
    requires Sorting.Distinct(keys)
    ensures forall key :: key in d <==> key in keys[..n]
    ensures forall i :: 0 <= i < n ==> keys[i] in d && d[keys[i]] == values[i] * mmPerPixel
  {
    if n == 0 then map[]
    else
      var d := ScaledDistribution(keys, values, mmPerPixel, n - 1);
      var r := d[keys[n - 1] := values[n - 1] * mmPerPixel];
      assert keys[..n] == keys[..n - 1] + [keys[n - 1]];
      forall i | 0 <= i < n
        ensures keys[i] in r && r[keys[i]] == values[i] * mmPerPixel
      {
        if i < n - 1 {
          assert keys[i] != keys[n - 1];
        }
      }
      r
  }

  /** The response built from an aggregate: every key D10 … D90 carries its
      aggregate value scaled by `mm_per_pixel`, and `size_mm` is the scaled
      P50, which is the "D50" entry. */
  function Respond(agg: PercentileVector, mmPerPixel: real): (resp: PredictionResponse)
    ensures forall key :: key in resp.distributionMm <==> key in DistributionKeys
    ensures forall i :: 0 <= i < 9 ==>
      DistributionKeys[i] in resp.distributionMm && resp.distributionMm[DistributionKeys[i]] == agg[i] * mmPerPixel
    ensures resp.sizeMm == agg[MedianIndex] * mmPerPixel
    ensures "D50" in resp.distributionMm && resp.sizeMm == resp.distributionMm["D50"]
  {
    DistributionKeysWellFormed();
    var d := ScaledDistribution(DistributionKeys, agg, mmPerPixel, 9);
    assert DistributionKeys[..9] == DistributionKeys;
    PredictionResponse(agg[MedianIndex] * mmPerPixel, d)
  }

  /** `run_inference` from the decoded image on: fails on a non-3-D image,
      on an empty tiling and on a failed analysis, in that order; otherwise
      responds with the aggregate of the tiles. */
  function AnalyseImage(image: DecodedImage, coin: Option<Coin>, mmPerPixel: real, estimate: Estimator)
    : (r: Result<PredictionResponse, GrainError>)
    ensures |image.shape| != 3 <==> r == Err(ShapeNotThreeDimensional(|image.shape|))
    ensures r == Err(NoValidTiles) <==>
      |image.shape| == 3 && PrepareTiles(image.shape[0], image.shape[1], coin) == []
    ensures r.Ok? <==>
      && |image.shape| == 3
      && RunSedinetAnalysis(PrepareTiles(image.shape[0], image.shape[1], coin), estimate).Some?
    ensures r.Ok? ==>
      r.value == Respond(RunSedinetAnalysis(PrepareTiles(image.shape[0], image.shape[1], coin), estimate).value, mmPerPixel)
  {
    if |image.shape| != 3 then Err(ShapeNotThreeDimensional(|image.shape|))
    else
      var tiles := PrepareTiles(image.shape[0], image.shape[1], coin);
      if tiles == [] then Err(NoValidTiles)
      else
        match RunSedinetAnalysis(tiles, estimate)
        case None => Err(AnalysisFailed)
        case Some(agg) => Ok(Respond(agg, mmPerPixel))
  }

  /** `run_inference(image_bytes, coin, mm_per_pixel)`: an image PIL cannot
      read fails first; a readable one is analysed. */
  function RunInference(imageBytes: Bytes, coin: Option<Coin>, mmPerPixel: real, decode: Decoder, estimate: Estimator)
    : (r: Result<PredictionResponse, GrainError>)
    ensures decode(imageBytes).Err? <==> r.Err? && r.error.Undecodable?
    ensures decode(imageBytes).Err? ==> r == Err(Undecodable(decode(imageBytes).error))
    ensures decode(imageBytes).Ok? ==> r == AnalyseImage(decode(imageBytes).value, coin, mmPerPixel, estimate)
  {
    match decode(imageBytes)
    case Err(text) => Err(Undecodable(text))
    case Ok(image) => AnalyseImage(image, coin, mmPerPixel, estimate)
  }

  /** `mm_per_pixel` is not validated: whether the analysis succeeds does not
      depend on it, so a zero or negative scale yields zero or negative sizes. */
  lemma ScaleIsNotValidated(image: DecodedImage, coin: Option<Coin>, m1: real, m2: real, estimate: Estimator)
    ensures AnalyseImage(image, coin, m1, estimate).Ok? == AnalyseImage(image, coin, m2, estimate).Ok?
  {
  }

  /** An image at most 1024 pixels high or wide always fails with "No valid
      sand tiles", whatever the coin and the estimator. */
  lemma SmallImageFails(image: DecodedImage, coin: Option<Coin>, mmPerPixel: real, estimate: Estimator)
    requires |image.shape| == 3
    requires image.shape[0] <= TileSize || image.shape[1] <= TileSize
    ensures AnalyseImage(image, coin, mmPerPixel, estimate) == Err(NoValidTiles)
  {
    SmallImageHasNoTiles(image.shape[0], image.shape[1], coin);
  }

  /** One failing tile discards the whole image, however many others succeed. */
  lemma OneFailingTileFailsImage(image: DecodedImage, coin: Option<Coin>, mmPerPixel: real, estimate: Estimator, i: int)
    requires |image.shape| == 3
    requires 0 <= i < |PrepareTiles(image.shape[0], image.shape[1], coin)|
    requires estimate(PrepareTiles(image.shape[0], image.shape[1], coin)[i]).None?
    ensures AnalyseImage(image, coin, mmPerPixel, estimate) == Err(AnalysisFailed)
  {
  }
}
