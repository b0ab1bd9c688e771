/**
 * The offline pipeline of har_utils.py: load a sensor file into
 * non-overlapping windows of 128 rows, turn each window into a feature row,
 * and map the model's class indices to activity names. The predictor also
 * serves the server, which loads the same object.
 */
module HarUtils {
  import opened Wrappers
  import opened Windowing
  import opened Features

  /**
   * The loaded `HARPredictor`, reduced to what the code uses of it: the number
   * of features the scaler was fitted on, `model.predict(scaler.transform(x))`,
   * the window-averaged `predict_proba` when the model has one, and
   * `activity_mapping` when the object has that attribute.
   */
  datatype Predictor = Predictor(
    expectedFeatures: nat,
    classify: seq<seq<Feature>> -> seq<int>,
    averageProbabilities: Option<seq<seq<Feature>> -> seq<real>>,
    mapping: Option<map<int, string>>)

  /** The model makes one prediction per row and knows at least one class. */
  ghost predicate ValidPredictor(p: Predictor)
  {
    (forall rows: seq<seq<Feature>> :: |p.classify(rows)| == |rows|) &&
    (p.averageProbabilities.Some? ==> forall rows: seq<seq<Feature>> :: |p.averageProbabilities.value(rows)| > 0)
  }

  /** `str.endswith`, which is case-sensitive. */
  predicate EndsWith(s: string, suffix: string)
  {
    |suffix| <= |s| && s[|s| - |suffix|..] == suffix
  }

  /** The two window arrays of a successful load. */
  datatype Loaded = Loaded(acc: seq<Window>, gyro: seq<Window>)

  /** The file kinds the loader reads: the last four characters are exactly ".txt" or ".csv". */
  predicate LoadableName(path: string): (ok: bool)
    ensures ok <==> |path| >= 4 && path[|path| - 4] == '.' &&
                    ((path[|path| - 3] == 't' && path[|path| - 2] == 'x' && path[|path| - 1] == 't') ||
                     (path[|path| - 3] == 'c' && path[|path| - 2] == 's' && path[|path| - 1] == 'v'))
  {
    var n := |path|;
    if n >= 4 then
      var tail := path[n - 4..];
      assert tail[0] == path[n - 4] && tail[1] == path[n - 3] && tail[2] == path[n - 2] && tail[3] == path[n - 1];
      EndsWith(path, ".txt") || EndsWith(path, ".csv")
    else
      EndsWith(path, ".txt") || EndsWith(path, ".csv")
  }

  /**
   * `load_and_preprocess_sensor_file(path)`. `parsed` is what `pd.read_csv`
   * makes of the file, None when it raises. Every error is caught and
   * becomes `(None, None)`, here None.
   */
  function Load(path: string, parsed: Option<Table>): (r: Option<Loaded>)
    ensures r.None? <==> !LoadableName(path) || parsed.None? || parsed.value.width < 6
  {
    if !LoadableName(path) then None
    else match parsed
      case None => None
      case Some(table) =>
        if table.width < 6 then None
        else
          WideTableRows(table);
          Some(Loaded(AccWindows(table.rows, WindowSize), GyroWindows(table.rows, WindowSize)))
  }

  /** The loader's windowing loop, with a step of one window. */
  method LoadAndPreprocess(path: string, parsed: Option<Table>) returns (r: Option<Loaded>)
    ensures r == Load(path, parsed)
  {
    if !(EndsWith(path, ".txt") || EndsWith(path, ".csv")) {
      return None;
    }
    if parsed.None? {
      return None;
    }
    var table := parsed.value;
    if table.width < 6 {
      return None;
    }
    WideTableRows(table);
    var acc, gyro := Segment(table.rows, WindowSize);
    r := Some(Loaded(acc, gyro));
  }

  /** A successful load has `n // 128` windows on each sensor, each of 128 rows; trailing rows are dropped. */
  lemma LoadWindows(path: string, table: Table)
    requires LoadableName(path) && table.width >= 6
    ensures var r := Load(path, Some(table));
            r.Some? && |r.value.acc| == |r.value.gyro| == |table.rows| / WindowSize &&
            (forall k :: 0 <= k < |r.value.acc| ==> |r.value.acc[k]| == |r.value.gyro[k]| == WindowSize)
  {
    NonOverlappingCount(|table.rows|);
  }

  /** The extension test is case-sensitive: a name ending in ".CSV", such as "DATA.CSV", is not loaded. */
  lemma LoadIsCaseSensitive(path: string, parsed: Option<Table>)
    requires EndsWith(path, ".CSV")
    ensures !LoadableName(path) && Load(path, parsed) == None
  {
    var n := |path|;
    assert path[n - 3] == 'C' && path[n - 2] == 'S';
    assert path[n - 4..][1] == 'C';
  }

  /** The errors `predict` can raise, each an exception the caller does not catch. */
  datatype PredictError =
    | WindowArraysMismatch     // `gyro_windows[i]` out of range
    | NoWindows                // `np.array([])` is one-dimensional and the scaler refuses it
    | RaggedFeatures           // `np.array` refuses rows of different lengths
    | FeatureCountRejected(got: nat)  // the scaler was fitted on another number of features
    | NoMapping                // the object has no `activity_mapping`
    | MissingLabel(pred: int)  // `activity_mapping[pred]` raises KeyError

  /** `[mapping[pred] for pred in preds]`: the first prediction without a name raises. */
  function LabelsOf(m: map<int, string>, preds: seq<int>): (r: Result<seq<string>, int>)
    ensures r.Ok? <==> forall i :: 0 <= i < |preds| ==> preds[i] in m
    ensures r.Ok? ==> |r.value| == |preds| && forall i :: 0 <= i < |preds| ==> r.value[i] == m[preds[i]]
    ensures r.Err? ==> exists i :: 0 <= i < |preds| && preds[i] == r.error && preds[i] !in m &&
                        forall j :: 0 <= j < i ==> preds[j] in m
  {
    if preds == [] then Ok([])
    else if preds[0] !in m then Err(preds[0])
    else
      match LabelsOf(m, preds[1..])
      case Ok(rest) => Ok([m[preds[0]]] + rest)
      case Err(pred) =>
        assert forall i :: 1 <= i <= |preds[1..]| ==> preds[i] == preds[1..][i - 1];
        Err(pred)
  }

  /** Windows as the loader makes them: 128 samples each. */
  ghost predicate FullWindows(ws: seq<Window>)
  {
    forall i :: 0 <= i < |ws| ==> |ws[i]| == WindowSize
  }

  /** The feature rows of the windows, one per accelerometer window. */
  function FeatureRows(num: Numerics, acc: seq<Window>, gyro: seq<Window>): (rows: seq<seq<Feature>>)
    requires ValidNumerics(num) && FullWindows(acc) && FullWindows(gyro) && |gyro| >= |acc|
    ensures |rows| == |acc|
  {
    seq(|acc|, i requires 0 <= i < |acc| => FeatureVector(num.derive(acc[i], gyro[i])))
  }

  /** `HARPredictor.predict(acc, gyro)`: its exceptions come in the order the code meets them. */
  function Prediction(num: Numerics, p: Predictor, acc: seq<Window>, gyro: seq<Window>): (r: Result<seq<string>, PredictError>)
    requires ValidNumerics(num) && ValidPredictor(p) && FullWindows(acc) && FullWindows(gyro)
    ensures r == Err(WindowArraysMismatch) <==> |gyro| < |acc|
    ensures r == Err(NoWindows) <==> |acc| == 0
    ensures |acc| > 0 && |gyro| >= |acc| ==>
              (r == Err(RaggedFeatures) <==> MatrixWidth(FeatureRows(num, acc, gyro)) == None)
    ensures |acc| > 0 && |gyro| >= |acc| && (r.Ok? || r.error.MissingLabel?) ==>
              MatrixWidth(FeatureRows(num, acc, gyro)) == Some(p.expectedFeatures) && p.mapping.Some?
  {
    if |gyro| < |acc| then Err(WindowArraysMismatch)
    else if |acc| == 0 then Err(NoWindows)
    else
      var rows := FeatureRows(num, acc, gyro);
      match MatrixWidth(rows)
      case None => Err(RaggedFeatures)
      case Some(width) =>
        if width != p.expectedFeatures then Err(FeatureCountRejected(width))
        else match p.mapping
          case None => Err(NoMapping)
          case Some(m) =>
            match LabelsOf(m, p.classify(rows))
            case Ok(labels) => Ok(labels)
            case Err(pred) => Err(MissingLabel(pred))
  }

  /** `predict`: the per-window loop of `process_all_pre_segmented_windows`, then the label lookup. */
  method Predict(num: Numerics, p: Predictor, acc: seq<Window>, gyro: seq<Window>) returns (r: Result<seq<string>, PredictError>)
    requires ValidNumerics(num) && ValidPredictor(p) && FullWindows(acc) && FullWindows(gyro)
    ensures r == Prediction(num, p, acc, gyro)
  {
    if |gyro| < |acc| {
      return Err(WindowArraysMismatch);
    }
    var rows := ExtractAll(acc, gyro, num.derive);
    assert rows == FeatureRows(num, acc, gyro);
    if |rows| == 0 {
      return Err(NoWindows);
    }
    var width := MatrixWidth(rows);
    if width.None? {
      return Err(RaggedFeatures);
    }
    if width.value != p.expectedFeatures {
      return Err(FeatureCountRejected(width.value));
    }
    if p.mapping.None? {
      return Err(NoMapping);
    }
    var labels := LabelsOf(p.mapping.value, p.classify(rows));
    if labels.Err? {
      return Err(MissingLabel(labels.error));
    }
    r := Ok(labels.value);
  }

  /** Every window gets exactly one label, the mapping's name for its prediction. */
  lemma OneLabelPerWindow(num: Numerics, p: Predictor, acc: seq<Window>, gyro: seq<Window>)
    requires ValidNumerics(num) && ValidPredictor(p) && FullWindows(acc) && FullWindows(gyro)
    requires Prediction(num, p, acc, gyro).Ok?
    ensures var labels := Prediction(num, p, acc, gyro).value;
            |labels| == |acc| && p.mapping.Some? &&
            forall i :: 0 <= i < |labels| ==> labels[i] in p.mapping.value.Values
  {
    var rows := FeatureRows(num, acc, gyro);
    var preds := p.classify(rows);
    var labels := Prediction(num, p, acc, gyro).value;
    assert labels == LabelsOf(p.mapping.value, preds).value;
    forall i | 0 <= i < |labels|
      ensures labels[i] in p.mapping.value.Values
    {
      assert preds[i] in p.mapping.value;
    }
  }

  /** What `predict_from_file` returns when loading fails. */
  const LoadFailureSentinel: seq<string> := ["Error processing file"]

  /** `predict_from_file(path)`. */
  function PredictionFromFile(num: Numerics, p: Predictor, path: string, parsed: Option<Table>): (r: Result<seq<string>, PredictError>)
    requires ValidNumerics(num) && ValidPredictor(p)
    ensures Load(path, parsed).None? ==> r == Ok(LoadFailureSentinel)
  {
    match Load(path, parsed)
    case None => Ok(LoadFailureSentinel)
    case Some(loaded) =>
      LoadWindows(path, parsed.value);
      Prediction(num, p, loaded.acc, loaded.gyro)
  }

  method PredictFromFile(num: Numerics, p: Predictor, path: string, parsed: Option<Table>) returns (r: Result<seq<string>, PredictError>)
    requires ValidNumerics(num) && ValidPredictor(p)
    ensures r == PredictionFromFile(num, p, path, parsed)
  {
    var loaded := LoadAndPreprocess(path, parsed);
    if loaded.None? {
      return Ok(["Error processing file"]);
    }
    LoadWindows(path, parsed.value);
    r := Predict(num, p, loaded.value.acc, loaded.value.gyro);
  }

  /** A file too short for one window loads, but `predict` then fails: the sentinel is for load errors only. */
  lemma ShortFileFailsInPredict(num: Numerics, p: Predictor, path: string, table: Table)
    requires ValidNumerics(num) && ValidPredictor(p)
    requires LoadableName(path) && table.width >= 6 && |table.rows| < WindowSize
    ensures PredictionFromFile(num, p, path, Some(table)) == Err(NoWindows)
  {
    LoadWindows(path, table);
  }

  /** A loaded file yields one label per window, `n // 128` of them. */
  lemma FileLabelsPerWindow(num: Numerics, p: Predictor, path: string, table: Table)
    requires ValidNumerics(num) && ValidPredictor(p) && LoadableName(path) && table.width >= 6
    requires PredictionFromFile(num, p, path, Some(table)).Ok?
    ensures |PredictionFromFile(num, p, path, Some(table)).value| == |table.rows| / WindowSize
  {
    LoadWindows(path, table);
    var loaded := Load(path, Some(table)).value;
    OneLabelPerWindow(num, p, loaded.acc, loaded.gyro);
  }
}
