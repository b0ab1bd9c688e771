/**
 * `POST /api/predict` of api.py: the validation chain, the overlapping
 * windowing, the feature matrix checks, the label fallbacks, the majority
 * vote and the preview lists of the response.
 */
module Api {
  import opened Wrappers
  import opened Text
  import opened Payload
  import opened Windowing
  import opened Features
  import opened Counter
  import opened HarUtils

  const MaxFileSize: nat := 10 * 1024 * 1024
  const AllowedExtensions: seq<string> := [".csv", ".txt", ".xlsx"]
  const SamplingRate: nat := 50
  const Overlap: nat := 64
  const Step: nat := WindowSize - Overlap
  const PreviewLimit: nat := 256
  const FftMaxSamples: nat := 500

  // ------------------------------------------------------------ extension

  /** `s.split('.')[-1]`: the longest suffix without a '.'. */
  function AfterLastDot(s: string): (r: string)
    ensures '.' !in r
    ensures |r| <= |s| && r == s[|s| - |r|..]
    ensures |r| < |s| ==> s[|s| - |r| - 1] == '.'
  {
    if s == [] then []
    else if s[|s| - 1] == '.' then []
    else
      var r := AfterLastDot(s[..|s| - 1]);
      assert s[..|s| - 1][|s| - 1 - |r|..] == s[|s| - 1 - |r|..|s| - 1];
      r + [s[|s| - 1]]
  }

  /** `file_ext`: '.' and the lower-cased text after the last '.', or "" for a name without a '.'. */
  function FileExtension(filename: string): (ext: string)
    ensures '.' !in filename ==> ext == ""
    ensures '.' in filename ==> 1 <= |ext| <= |filename| && ext[0] == '.' && '.' !in ext[1..] &&
                                filename[|filename| - |ext|] == '.' &&
                                ext[1..] == Lower(filename[|filename| - |ext| + 1..])
  {
    if '.' in filename then
      var r := AfterLastDot(filename);
      assert r != filename;
      DotSurvivesLower(r);
      assert ("." + Lower(r))[1..] == Lower(r);
      "." + Lower(r)
    else ""
  }

  /** `file_ext in allowed_extensions`: the name has a '.', and after its last '.' comes "csv", "txt" or "xlsx" in any ASCII case. */
  predicate ExtensionAllowed(filename: string): (ok: bool)
    ensures ok <==> '.' in filename && Lower(AfterLastDot(filename)) in ["csv", "txt", "xlsx"]
  {
    if '.' in filename then
      DottedAllowed(Lower(AfterLastDot(filename)));
      FileExtension(filename) in AllowedExtensions
    else
      FileExtension(filename) in AllowedExtensions
  }

  lemma DottedAllowed(x: string)
    ensures "." + x in AllowedExtensions <==> x in ["csv", "txt", "xlsx"]
  {
    var d := "." + x;
    assert d[1..] == x;
    if d in AllowedExtensions {
      assert d == ".csv" || d == ".txt" || d == ".xlsx";
      assert ".csv"[1..] == "csv" && ".txt"[1..] == "txt" && ".xlsx"[1..] == "xlsx";
    }
    if x in ["csv", "txt", "xlsx"] {
      assert "." + "csv" == ".csv" && "." + "txt" == ".txt" && "." + "xlsx" == ".xlsx";
    }
  }

  lemma {:induction false} AfterLastDotLower(s: string)
    ensures AfterLastDot(Lower(s)) == Lower(AfterLastDot(s))
  {
    if s != [] {
      var init, c := s[..|s| - 1], s[|s| - 1];
      assert s == init + [c];
      LowerSnoc(init, c);
      var l := Lower(s);
      assert l == Lower(init) + [LowerChar(c)];
      assert l[..|l| - 1] == Lower(init) && l[|l| - 1] == LowerChar(c);
      if c != '.' {
        AfterLastDotLower(init);
        LowerSnoc(AfterLastDot(init), c);
      }
    }
  }

  lemma DotSurvivesLower(s: string)
    ensures '.' in Lower(s) <==> '.' in s
  {
    if '.' in s {
      var i :| 0 <= i < |s| && s[i] == '.';
      assert Lower(s)[i] == '.';
    }
  }

  /** Names that agree up to the case of ASCII letters get the same extension. */
  lemma ExtensionIgnoresCase(f: string, g: string)
    requires Lower(f) == Lower(g)
    ensures FileExtension(f) == FileExtension(g)
    ensures ExtensionAllowed(f) <==> ExtensionAllowed(g)
  {
    DotSurvivesLower(f);
    DotSurvivesLower(g);
    if '.' in f {
      AfterLastDotLower(f);
      AfterLastDotLower(g);
      assert FileExtension(f) == "." + AfterLastDot(Lower(f));
      assert FileExtension(g) == "." + AfterLastDot(Lower(g));
    }
  }

  /** A name ending in '.' has the extension "." and is refused. */
  lemma TrailingDotRejected(f: string)
    requires |f| > 0 && f[|f| - 1] == '.'
    ensures FileExtension(f) == "." && !ExtensionAllowed(f)
  {
  }

  /** A name without a '.' has no extension and is refused. */
  lemma NoDotRejected(f: string)
    requires '.' !in f
    ensures !ExtensionAllowed(f)
  {
  }

  /** The extension may be upper-case: "a.CSV" passes. */
  lemma UpperCaseExtensionAccepted()
    ensures ExtensionAllowed("a.CSV")
  {
    UpperCaseNameParts();
    assert FileExtension("a.CSV") == ".csv" by {
      assert "a.CSV"[1] == '.';
      assert "." + "csv" == ".csv";
    }
    assert AllowedExtensions[0] == ".csv";
  }

  lemma UpperCaseNameParts()
    ensures AfterLastDot("a.CSV") == "CSV" && Lower("CSV") == "csv"
  {
    UpperCaseNameSuffix();
    var ext := Lower("CSV");
    assert ext[0] == 'c' && ext[1] == 's' && ext[2] == 'v';
  }

  lemma UpperCaseNameSuffix()
    ensures AfterLastDot("a.CSV") == "CSV"
  {
    var name := "a.CSV";
    assert name[..4] == "a.CS" && name[..3] == "a.C" && name[..2] == "a.";
  }

  /** "data.csv.bak" is refused: its extension is ".bak". */
  lemma InnerExtensionIgnored()
    ensures !ExtensionAllowed("data.csv.bak")
  {
    assert AfterLastDot("data.csv.bak") == "bak";
  }

  // ----------------------------------------------------------- validation

  /** The uploaded file: its name, its length in bytes, and what `parse_file_content` makes of it (the error text when it raises). */
  datatype Upload = Upload(filename: string, size: nat, parsed: Result<Table, string>)

  /** Why a request fails. */
  datatype Failure =
    | UnsupportedFileType
    | FileTooLarge
    | EmptyFile
    | ParseFailure(reason: string)
    | TooFewColumns(got: nat)
    | InsufficientData
    | RaggedFeatureRows
    | FeatureCountMismatch(got: nat, expected: nat)

  /** The HTTP status of the error response. */
  function Status(f: Failure): (code: nat)
    ensures code == 400 || code == 500
    ensures code == 500 <==> f.ParseFailure? || f.RaggedFeatureRows? || f.FeatureCountMismatch?
  {
    match f
    case ParseFailure(_) => 500
    case RaggedFeatureRows => 500
    case FeatureCountMismatch(_, _) => 500
    case _ => 400
  }

  /** The checks before windowing, in the order the code makes them. */
  function CheckUpload(u: Upload): (r: Result<Table, Failure>)
    ensures r.Ok? ==> r.value.width >= 6
  {
    if !ExtensionAllowed(u.filename) then Err(UnsupportedFileType)
    else if u.size > MaxFileSize then Err(FileTooLarge)
    else if u.size == 0 then Err(EmptyFile)
    else match u.parsed
      case Err(reason) => Err(ParseFailure(reason))
      case Ok(table) => if table.width < 6 then Err(TooFewColumns(table.width)) else Ok(table)
  }

  // --------------------------------------------------------------- labels

  /** The name reported for one prediction. */
  function ActivityName(mapping: Option<map<int, string>>, pred: int): (name: string)
    ensures mapping.Some? && pred in mapping.value ==> name == mapping.value[pred]
    ensures mapping.Some? && pred !in mapping.value ==> name == "Unknown_" + Decimal(pred)
    ensures mapping.None? ==> name == "Activity_" + Decimal(pred)
  {
    match mapping
    case None => "Activity_" + Decimal(pred)
    case Some(m) => if pred in m then m[pred] else "Unknown_" + Decimal(pred)
  }

  /** `activity_names`: one name per prediction, in order. */
  function ActivityNames(mapping: Option<map<int, string>>, preds: seq<int>): (names: seq<string>)
    ensures |names| == |preds|
    ensures forall i :: 0 <= i < |preds| ==> names[i] == ActivityName(mapping, preds[i])
  {
    seq(|preds|, i requires 0 <= i < |preds| => ActivityName(mapping, preds[i]))
  }

  /** `class_labels`: the name of class i, or `Activity_<i>`. */
  function ClassLabels(m: map<int, string>, classes: nat): (labels: seq<string>)
    ensures |labels| == classes
    ensures forall i :: 0 <= i < classes ==> labels[i] == if i in m then m[i] else "Activity_" + Decimal(i)
  {
    seq(classes, i requires 0 <= i < classes => if i in m then m[i] else "Activity_" + Decimal(i))
  }

  /** An unmapped class is called `Unknown_<i>` among the predictions but `Activity_<i>` among the probabilities. */
  lemma UnmappedClassNamedTwoWays(m: map<int, string>, i: nat, classes: nat)
    requires i < classes && i !in m
    ensures ClassLabels(m, classes)[i] != ActivityName(Some(m), i)
  {
    assert ClassLabels(m, classes)[i][0] == 'A';
    assert ActivityName(Some(m), i)[0] == 'U';
  }

  /** Different unmapped predictions get different fallback names. */
  lemma FallbackNamesDistinct(mapping: Option<map<int, string>>, a: int, b: int)
    requires mapping.None? || (a !in mapping.value && b !in mapping.value)
    requires ActivityName(mapping, a) == ActivityName(mapping, b)
    ensures a == b
  {
    var prefix: nat := if mapping.None? then 9 else 8;
    assert ActivityName(mapping, a)[prefix..] == Decimal(a);
    assert ActivityName(mapping, b)[prefix..] == Decimal(b);
    DecimalInjective(a, b);
  }

  /** `d[k] = v` on a Python dict: a new key goes last, an existing key keeps its place and takes the new value. */
  function Put<V>(d: seq<(string, V)>, k: string, v: V): (r: seq<(string, V)>)
    ensures k in Keys(d) ==> Keys(r) == Keys(d)
    ensures k !in Keys(d) ==> Keys(r) == Keys(d) + [k]
    ensures forall i :: 0 <= i < |r| ==> r[i].1 == if r[i].0 == k then v else d[i].1
  {
    if k in Keys(d) then seq(|d|, i requires 0 <= i < |d| => if d[i].0 == k then (k, v) else d[i])
    else d + [(k, v)]
  }

  /** `{k: v for k, v in zip(keys, vals)}`. */
  function DictFromPairs<V>(keys: seq<string>, vals: seq<V>): (d: seq<(string, V)>)
    requires |keys| == |vals|
    ensures Keys(d) == Distinct(keys)
  {
    if keys == [] then []
    else
      var n := |keys| - 1;
      assert keys == keys[..n] + [keys[n]];
      Put(DictFromPairs(keys[..n], vals[..n]), keys[n], vals[n])
  }

  lemma {:induction false} DistinctOfDistinct(keys: seq<string>)
    requires NoDuplicates(keys)
    ensures Distinct(keys) == keys
  {
    if keys != [] {
      var n := |keys| - 1;
      assert keys == keys[..n] + [keys[n]];
      DistinctOfDistinct(keys[..n]);
      assert keys[n] !in keys[..n];
    }
  }

  /** With distinct keys the comprehension keeps every pair, in order. */
  lemma {:induction false} DictFromDistinctKeys<V>(keys: seq<string>, vals: seq<V>)
    requires |keys| == |vals| && NoDuplicates(keys)
    ensures var d := DictFromPairs(keys, vals);
            |d| == |keys| && forall i :: 0 <= i < |keys| ==> d[i] == (keys[i], vals[i])
  {
    if keys != [] {
      var n := |keys| - 1;
      assert keys == keys[..n] + [keys[n]];
      var d := DictFromPairs(keys[..n], vals[..n]);
      DictFromDistinctKeys(keys[..n], vals[..n]);
      DistinctOfDistinct(keys[..n]);
      assert keys[n] !in Keys(d);
      assert DictFromPairs(keys, vals) == d + [(keys[n], vals[n])];
    }
  }

  /** The position of the last occurrence of a key. */
  function LastIndexOf(keys: seq<string>, k: string): (i: nat)
    requires k in keys
    ensures i < |keys| && keys[i] == k
    ensures forall j :: i < j < |keys| ==> keys[j] != k
  {
    var n := |keys| - 1;
    if keys[n] == k then n
    else
      assert keys == keys[..n] + [keys[n]];
      LastIndexOf(keys[..n], k)
  }

  /** Every entry of the comprehension holds the value paired with the LAST occurrence of its key: a later class overwrites an earlier one with the same name. */
  lemma {:induction false} DictFromPairsValues<V>(keys: seq<string>, vals: seq<V>)
    requires |keys| == |vals|
    ensures var d := DictFromPairs(keys, vals);
            forall j :: 0 <= j < |d| ==> d[j].0 in keys && d[j].1 == vals[LastIndexOf(keys, d[j].0)]
  {
    var d := DictFromPairs(keys, vals);
    forall j | 0 <= j < |d|
      ensures d[j].0 in keys && d[j].1 == vals[LastIndexOf(keys, d[j].0)]
    {
      assert Keys(d)[j] == d[j].0;
      DictEntryValue(keys, vals, j);
    }
  }

  lemma {:induction false} DictEntryValue<V>(keys: seq<string>, vals: seq<V>, j: nat)
    requires |keys| == |vals| && j < |DictFromPairs(keys, vals)|
    ensures DictFromPairs(keys, vals)[j].0 in keys
    ensures DictFromPairs(keys, vals)[j].1 == vals[LastIndexOf(keys, DictFromPairs(keys, vals)[j].0)]
  {
    var d := DictFromPairs(keys, vals);
    assert Keys(d)[j] == d[j].0;
    var n := |keys| - 1;
    var init, kn, vn := keys[..n], keys[n], vals[n];
    assert keys == init + [kn];
    var prev := DictFromPairs(init, vals[..n]);
    assert d == Put(prev, kn, vn);
    var key := d[j].0;
    if key == kn {
      assert LastIndexOf(keys, key) == n;
    } else {
      assert j < |prev| && Keys(d)[j] == Keys(prev)[j];
      DictEntryValue(init, vals[..n], j);
      assert LastIndexOf(keys, key) == LastIndexOf(init, key);
    }
  }

  /** Two classes with the same name leave one entry, holding the later probability: an instance of `DictFromPairsValues`. */
  lemma DictCollisionKeepsLastValue()
    ensures DictFromPairs(["Walking", "Walking"], [0.25, 0.75]) == [("Walking", 0.75)]
  {
    RepeatedKeyKeepsLast(["Walking", "Walking"], [0.25, 0.75]);
  }

  lemma RepeatedKeyKeepsLast<V>(keys: seq<string>, vals: seq<V>)
    requires |keys| == |vals| == 2 && keys[0] == keys[1]
    ensures DictFromPairs(keys, vals) == [(keys[1], vals[1])]
  {
    var k := keys[1];
    var d := DictFromPairs(keys, vals);
    DictFromPairsValues(keys, vals);
    var dk := Distinct(keys);
    assert dk == Keys(d);
    assert k in dk;
    assert |d| == 1 && d[0].0 == dk[0] == k;
    assert LastIndexOf(keys, k) == 1;
  }

  /** `np.max` of a non-empty list. */
  function MaxOf(xs: seq<real>): (m: real)
    requires |xs| > 0
    ensures m in xs
    ensures forall i :: 0 <= i < |xs| ==> xs[i] <= m
  {
    if |xs| == 1 then xs[0]
    else
      var rest := MaxOf(xs[1..]);
      if xs[0] >= rest then xs[0] else rest
  }

  /** `confidence_score` and `probabilities_data`. */
  function Probabilities(p: Predictor, rows: seq<seq<Feature>>): (r: (real, Option<seq<(string, real)>>))
    requires ValidPredictor(p)
    ensures p.averageProbabilities.None? ==> r == (0.0, None)
    ensures p.averageProbabilities.Some? ==> r.0 == MaxOf(p.averageProbabilities.value(rows))
    ensures r.1.Some? <==> p.averageProbabilities.Some? && p.mapping.Some?
  {
    match p.averageProbabilities
    case None => (0.0, None)
    case Some(average) =>
      var avg := average(rows);
      var confidence := MaxOf(avg);
      match p.mapping
      case None => (confidence, None)
      case Some(m) => (confidence, Some(DictFromPairs(ClassLabels(m, |avg|), avg)))
  }

  /** `probabilities_data`, when present, has one entry at least: the model knows a class. */
  lemma ProbabilitiesNonEmpty(p: Predictor, rows: seq<seq<Feature>>)
    requires ValidPredictor(p)
    ensures Probabilities(p, rows).1.Some? ==> |Probabilities(p, rows).1.value| > 0
  {
    if p.averageProbabilities.Some? && p.mapping.Some? {
      var avg := p.averageProbabilities.value(rows);
      var labels := ClassLabels(p.mapping.value, |avg|);
      assert labels[0] in Distinct(labels);
      assert |Keys(DictFromPairs(labels, avg))| > 0;
    }
  }

  // -------------------------------------------------------------- preview

  /** `min(256, n)`. */
  function PreviewLength(n: nat): (m: nat)
    ensures m <= n && m <= PreviewLimit
    ensures m == n || m == PreviewLimit
  {
    if n < PreviewLimit then n else PreviewLimit
  }

  /** `sensor_data[:n, c]`. */
  function Column(t: Table, c: nat, n: nat): (col: seq<real>)
    requires c < t.width && n <= |t.rows|
    ensures |col| == n
    ensures forall i :: 0 <= i < n ==> col[i] == t.rows[i][c]
  {
    seq(n, i requires 0 <= i < n => t.rows[i][c])
  }

  /** `np.arange(n) / FS`. */
  function TimeAxis(n: nat): (ts: seq<real>)
    ensures |ts| == n
    ensures forall i :: 0 <= i < n ==> ts[i] * SamplingRate as real == i as real
  {
    seq(n, i requires 0 <= i < n => i as real / SamplingRate as real)
  }

  /** `signals_preview`: seven lists of `min(256, n)` entries; the time axis steps by 1/50 s and each channel is its column read unchanged. */
  function SignalsPreviewOf(t: Table): (sp: SignalsPreview)
    requires t.width >= 6
    ensures var n := PreviewLength(|t.rows|);
            |sp.t| == |sp.accX| == |sp.accY| == |sp.accZ| == |sp.gyroX| == |sp.gyroY| == |sp.gyroZ| == n &&
            (forall i :: 0 <= i < n ==> sp.t[i] * 50.0 == i as real) &&
            (forall i :: 0 <= i < n ==>
               sp.accX[i] == t.rows[i][0] && sp.accY[i] == t.rows[i][1] && sp.accZ[i] == t.rows[i][2] &&
               sp.gyroX[i] == t.rows[i][3] && sp.gyroY[i] == t.rows[i][4] && sp.gyroZ[i] == t.rows[i][5])
  {
    var n := PreviewLength(|t.rows|);
    SignalsPreview(TimeAxis(n), Column(t, 0, n), Column(t, 1, n), Column(t, 2, n),
                   Column(t, 3, n), Column(t, 4, n), Column(t, 5, n))
  }

  /** The preview starts with the first window: its first 128 rows are the first window's samples. */
  lemma PreviewCoversFirstWindow(t: Table, j: nat)
    requires t.width >= 6 && |t.rows| >= WindowSize && j < WindowSize
    ensures WindowCount(|t.rows|, Step) > 0
    ensures var sp := SignalsPreviewOf(t);
            AccWindows(t.rows, Step)[0][j] == Triple(sp.accX[j], sp.accY[j], sp.accZ[j]) &&
            GyroWindows(t.rows, Step)[0][j] == Triple(sp.gyroX[j], sp.gyroY[j], sp.gyroZ[j])
  {
    WideTableRows(t);
    WindowContents(t.rows, Step, 0, j);
  }

  /** `compute_fft_preview`'s truncation to the first 500 samples. */
  function FftInput(signal: seq<real>): (s: seq<real>)
    ensures |s| == if |signal| > FftMaxSamples then FftMaxSamples else |signal|
    ensures s == signal[..|s|]
  {
    if |signal| > FftMaxSamples then signal[..FftMaxSamples] else signal
  }

  /** `rfftfreq(n, 1/FS)`: bin k is at k * FS / n Hz. */
  function RfftFreq(n: nat): (f: seq<real>)
    requires n > 0
    ensures |f| == n / 2 + 1
    ensures forall k :: 0 <= k < |f| ==> f[k] * n as real == k as real * SamplingRate as real
  {
    seq(n / 2 + 1, k requires 0 <= k < n / 2 + 1 => k as real * SamplingRate as real / n as real)
  }

  lemma Nyquist(n: nat, k: nat, f: real)
    requires n > 0 && k <= n / 2 && f * n as real == k as real * 50.0
    ensures 0.0 <= f <= 25.0
  {
    assert 2 * k <= n;
    assert (k as real) * 50.0 <= (n as real) * 25.0;
    SignOfFactor(25.0 - f, n as real);
    SignOfFactor(f, n as real);
  }

  /** A product with a positive factor has the sign of the other factor. */
  lemma SignOfFactor(x: real, y: real)
    requires y > 0.0 && x * y >= 0.0
    ensures x >= 0.0
  {
  }

  /** The frequency axis starts at 0 Hz and never exceeds the Nyquist frequency of 25 Hz, in exact arithmetic. */
  lemma RfftFreqRange(n: nat)
    requires n > 0
    ensures RfftFreq(n)[0] == 0.0
    ensures forall k :: 0 <= k < |RfftFreq(n)| ==> 0.0 <= RfftFreq(n)[k] <= 25.0
  {
    var f := RfftFreq(n);
    forall k | 0 <= k < |f|
      ensures 0.0 <= f[k] <= 25.0
    {
      Nyquist(n, k, f[k]);
    }
  }

  /** `fft_preview`: the frequency axis of the accelerometer x signal and the three accelerometer spectra. */
  function FftPreviewOf(num: Numerics, t: Table): (fp: FftPreview)
    requires t.width >= 6 && |t.rows| > 0
    ensures |fp.freq| == PreviewLength(|t.rows|) / 2 + 1
    ensures forall k :: 0 <= k < |fp.freq| ==> 0.0 <= fp.freq[k] <= 25.0
  {
    var n := PreviewLength(|t.rows|);
    var x, y, z := FftInput(Column(t, 0, n)), FftInput(Column(t, 1, n)), FftInput(Column(t, 2, n));
    RfftFreqRange(|x|);
    FftPreview(RfftFreq(|x|), num.spectrum(x), num.spectrum(y), num.spectrum(z))
  }

  /** The preview has at most 256 samples, so the 500-sample truncation never applies, and there is one magnitude per frequency bin. */
  lemma FftPreviewShape(num: Numerics, t: Table)
    requires ValidNumerics(num) && t.width >= 6 && |t.rows| > 0
    ensures var n := PreviewLength(|t.rows|);
            FftInput(Column(t, 0, n)) == Column(t, 0, n) &&
            FftInput(Column(t, 1, n)) == Column(t, 1, n) &&
            FftInput(Column(t, 2, n)) == Column(t, 2, n)
    ensures var fp := FftPreviewOf(num, t);
            |fp.magAccX| == |fp.magAccY| == |fp.magAccZ| == |fp.freq|
  {
  }

  // ------------------------------------------------------------- endpoint

  /** The successful response, once the feature matrix passed its checks. */
  function Answer(num: Numerics, p: Predictor, filename: string, t: Table, rows: seq<seq<Feature>>): PredictionResult
    requires ValidPredictor(p) && t.width >= 6 && |t.rows| > 0 && |rows| > 0
  {
    var preds := p.classify(rows);
    var names := ActivityNames(p.mapping, preds);
    var (confidence, probabilities) := Probabilities(p, rows);
    PredictionResult(
      MostCommon(names), confidence, probabilities,
      Meta(|t.rows|, 6, SamplingRate, |preds|, filename),
      Some(SignalsPreviewOf(t)), Some(FftPreviewOf(num, t)),
      names, Some(Distribution(names)))
  }

  /** The shape checks on `np.array(features)` and the response built after them. */
  function Analyze(num: Numerics, p: Predictor, filename: string, t: Table, rows: seq<seq<Feature>>): (r: Result<PredictionResult, Failure>)
    requires ValidPredictor(p) && t.width >= 6 && |t.rows| > 0 && |rows| > 0
    ensures r.Ok? <==> MatrixWidth(rows) == Some(p.expectedFeatures)
    ensures r.Err? ==> Status(r.error) == 500
  {
    match MatrixWidth(rows)
    case None => Err(RaggedFeatureRows)
    case Some(width) =>
      if width != p.expectedFeatures then Err(FeatureCountMismatch(width, p.expectedFeatures))
      else Ok(Answer(num, p, filename, t, rows))
  }

  /** What `predict_activity` answers for an upload. */
  function Respond(num: Numerics, p: Predictor, u: Upload): (r: Result<PredictionResult, Failure>)
    requires ValidNumerics(num) && ValidPredictor(p)
    ensures r.Ok? <==> CheckUpload(u).Ok? && |CheckUpload(u).value.rows| >= WindowSize &&
                       MatrixWidth(ServerFeatureRows(num, CheckUpload(u).value)) == Some(p.expectedFeatures)
  {
    match CheckUpload(u)
    case Err(f) => Err(f)
    case Ok(t) =>
      if WindowCount(|t.rows|, Step) == 0 then Err(InsufficientData)
      else Analyze(num, p, u.filename, t, ServerFeatureRows(num, t))
  }

  /** The feature rows of a table's overlapping windows. */
  function ServerFeatureRows(num: Numerics, t: Table): (rows: seq<seq<Feature>>)
    requires ValidNumerics(num) && t.width >= 6
    ensures |rows| == WindowCount(|t.rows|, Step)
  {
    WideTableRows(t);
    FeatureRows(num, AccWindows(t.rows, Step), GyroWindows(t.rows, Step))
  }

  /** A successful response is built from the table's previews and the feature rows of its windows. */
  lemma RespondOk(num: Numerics, p: Predictor, u: Upload)
    requires ValidNumerics(num) && ValidPredictor(p) && Respond(num, p, u).Ok?
    ensures CheckUpload(u).Ok? && u.parsed == Ok(CheckUpload(u).value)
    ensures var t := CheckUpload(u).value; var res := Respond(num, p, u).value;
            |t.rows| >= WindowSize &&
            MatrixWidth(ServerFeatureRows(num, t)) == Some(p.expectedFeatures) &&
            res == Answer(num, p, u.filename, t, ServerFeatureRows(num, t))
  {
    var t := CheckUpload(u).value;
    CheckedTableParsed(u);
    assert Respond(num, p, u) == Analyze(num, p, u.filename, t, ServerFeatureRows(num, t));
  }

  lemma CheckedTableParsed(u: Upload)
    requires CheckUpload(u).Ok?
    ensures u.parsed == Ok(CheckUpload(u).value)
  {
  }

  /** `predict_activity`: the checks, the windowing loop, the per-window feature loop, then the response. */
  method PredictActivity(num: Numerics, p: Predictor, u: Upload) returns (r: Result<PredictionResult, Failure>)
    requires ValidNumerics(num) && ValidPredictor(p)
    ensures r == Respond(num, p, u)
  {
    var checked := CheckUpload(u);
    if checked.Err? {
      return Err(checked.error);
    }
    var t := checked.value;
    WideTableRows(t);
    var acc, gyro := Segment(t.rows, Step);
    if |acc| == 0 {
      return Err(InsufficientData);
    }
    var features := ExtractAll(acc, gyro, num.derive);
    assert features == ServerFeatureRows(num, t);
    r := Analyze(num, p, u.filename, t, features);
  }

  /** The checks before windowing come in a fixed order; each rejection is a 400 except a file that cannot be parsed. */
  lemma CheckUploadOrder(u: Upload)
    ensures CheckUpload(u) == Err(UnsupportedFileType) <==> !ExtensionAllowed(u.filename)
    ensures CheckUpload(u) == Err(FileTooLarge) <==> ExtensionAllowed(u.filename) && u.size > MaxFileSize
    ensures CheckUpload(u) == Err(EmptyFile) <==> ExtensionAllowed(u.filename) && u.size == 0
    ensures (CheckUpload(u).Err? && CheckUpload(u).error.ParseFailure?) <==>
              ExtensionAllowed(u.filename) && 0 < u.size <= MaxFileSize && u.parsed.Err?
    ensures (CheckUpload(u).Err? && CheckUpload(u).error.TooFewColumns?) <==>
              ExtensionAllowed(u.filename) && 0 < u.size <= MaxFileSize && u.parsed.Ok? && u.parsed.value.width < 6
    ensures CheckUpload(u).Ok? <==>
              ExtensionAllowed(u.filename) && 0 < u.size <= MaxFileSize && u.parsed.Ok? && u.parsed.value.width >= 6
  {
  }

  /** The size limit is inclusive: a file of exactly 10 MiB with an allowed name is not refused for its size. */
  lemma ExactLimitPasses(u: Upload)
    requires ExtensionAllowed(u.filename) && u.size == MaxFileSize
    ensures CheckUpload(u) != Err(FileTooLarge) && CheckUpload(u) != Err(EmptyFile)
  {
  }

  /** The response's errors: first those of the checks, then "Insufficient data" for fewer than 128 rows, then only status-500 failures. */
  lemma RespondErrors(num: Numerics, p: Predictor, u: Upload)
    requires ValidNumerics(num) && ValidPredictor(p)
    ensures CheckUpload(u).Err? ==> Respond(num, p, u) == Err(CheckUpload(u).error)
    ensures CheckUpload(u).Ok? ==>
              (Respond(num, p, u) == Err(InsufficientData) <==> |CheckUpload(u).value.rows| < WindowSize)
    ensures CheckUpload(u).Ok? && |CheckUpload(u).value.rows| >= WindowSize && Respond(num, p, u).Err? ==>
              Status(Respond(num, p, u).error) == 500
  {
    match CheckUpload(u)
    case Err(f) =>
      assert Respond(num, p, u) == Err(f);
    case Ok(t) =>
      if |t.rows| >= WindowSize {
        var r := Analyze(num, p, u.filename, t, ServerFeatureRows(num, t));
        assert Respond(num, p, u) == r;
        assert r.Err? ==> Status(r.error) == 500 && r.error != InsufficientData;
      } else {
        assert Respond(num, p, u) == Err(InsufficientData);
      }
  }

  /** A table of n >= 128 rows gives (n - 128) / 64 + 1 windows, and the response reports one prediction per window. */
  lemma WindowsAnalyzed(num: Numerics, p: Predictor, u: Upload)
    requires ValidNumerics(num) && ValidPredictor(p) && Respond(num, p, u).Ok?
    ensures u.parsed.Ok? && |u.parsed.value.rows| >= WindowSize
    ensures var res := Respond(num, p, u).value; var n := |u.parsed.value.rows|;
            res.meta.windowsAnalyzed == |res.allPredictions| == (n - WindowSize) / Step + 1 &&
            res.meta.samples == n && res.meta.channels == 6 && res.meta.samplingRate == SamplingRate &&
            res.meta.filename == u.filename
  {
    RespondOk(num, p, u);
    var t := CheckUpload(u).value;
    var rows := ServerFeatureRows(num, t);
    assert Respond(num, p, u).value == Answer(num, p, u.filename, t, rows);
  }

  /** The reported activity is a label with the largest count, and the distribution counts add up to the number of windows. */
  lemma MajorityAndDistribution(num: Numerics, p: Predictor, u: Upload, y: string)
    requires ValidNumerics(num) && ValidPredictor(p) && Respond(num, p, u).Ok?
    ensures var res := Respond(num, p, u).value;
            |res.allPredictions| > 0 &&
            res.activity in res.allPredictions &&
            Count(res.allPredictions, res.activity) >= Count(res.allPredictions, y) &&
            res.predictionDistribution.Some? &&
            CountTotal(res.predictionDistribution.value) == res.meta.windowsAnalyzed &&
            Keys(res.predictionDistribution.value) == Distinct(res.allPredictions)
  {
    WindowsAnalyzed(num, p, u);
    var names := Respond(num, p, u).value.allPredictions;
    MostCommonIsMaximal(names, y);
    DistributionTotal(names);
  }

  /** The signals derived from window k of a table, as the feature loop sees them. */
  function DerivedWindow(num: Numerics, t: Table, k: nat): (w: SignalsWindow)
    requires ValidNumerics(num) && t.width >= 6 && k < WindowCount(|t.rows|, Step)
    ensures NonEmptySignals(w)
    ensures ServerFeatureRows(num, t)[k] == FeatureVector(w)
  {
    WideTableRows(t);
    num.derive(AccWindows(t.rows, Step)[k], GyroWindows(t.rows, Step)[k])
  }

  /** A constant signal in one window but not in another makes the request fail with status 500. */
  lemma ConstantSignalFails(num: Numerics, p: Predictor, u: Upload, i: nat, j: nat)
    requires ValidNumerics(num) && ValidPredictor(p) && CheckUpload(u).Ok?
    requires var t := CheckUpload(u).value;
             i < j < WindowCount(|t.rows|, Step) &&
             ConstantSignals(DerivedWindow(num, t, i)) != ConstantSignals(DerivedWindow(num, t, j))
    ensures Respond(num, p, u) == Err(RaggedFeatureRows)
  {
    var t := CheckUpload(u).value;
    var rows := ServerFeatureRows(num, t);
    FeatureVectorLength(DerivedWindow(num, t, i));
    FeatureVectorLength(DerivedWindow(num, t, j));
    assert |rows[i]| != |rows[j]|;
  }
}
