/**
 * What holds when the pages read a response of the server: the properties
 * below connect `Api.Respond` to the views of `ResultsPage`, and the upload
 * page's size gate to the server's checks.
 */
module Pipeline {
  import opened Wrappers
  import opened Payload
  import Windowing
  import Features
  import HarUtils
  import Counter
  import Api
  import ResultsPage
  import UploadPage

  /** Every channel of the server's preview is as long as its time axis. */
  lemma PreviewChannelsCoverTime(t: Windowing.Table)
    requires t.width >= 6
    ensures ResultsPage.ChannelsCoverTime(Api.SignalsPreviewOf(t))
    ensures |Api.SignalsPreviewOf(t).t| == Api.PreviewLength(|t.rows|)
  {
    var sp := Api.SignalsPreviewOf(t);
    forall s: ResultsPage.Sensor, a: ResultsPage.Axis
      ensures |ResultsPage.Channel(sp, s, a)| >= |sp.t|
    {
    }
  }

  /** A successful response is drawn as `min(256, n)` time rows with no `undefined` cell. */
  lemma ServerTimeChartComplete(num: Features.Numerics, p: HarUtils.Predictor, u: Api.Upload)
    requires Features.ValidNumerics(num) && HarUtils.ValidPredictor(p) && Api.Respond(num, p, u).Ok?
    ensures var res := Api.Respond(num, p, u).value;
            var rows := ResultsPage.PrepareTimeData(res.signalsPreview);
            |rows| == Api.PreviewLength(res.meta.samples) && ResultsPage.AllCellsDefined(rows)
  {
    Api.RespondOk(num, p, u);
    Api.WindowsAnalyzed(num, p, u);
    var t := Api.CheckUpload(u).value;
    var res := Api.Respond(num, p, u).value;
    assert res.signalsPreview == Some(Api.SignalsPreviewOf(t));
    PreviewChannelsCoverTime(t);
    ResultsPage.TimeDataDefinedIff(Api.SignalsPreviewOf(t));
  }

  /** In exact arithmetic the server's frequency axis stops at 25 Hz, so the chart keeps every bin the server sends. */
  lemma ServerFreqChartUncut(num: Features.Numerics, p: HarUtils.Predictor, u: Api.Upload)
    requires Features.ValidNumerics(num) && HarUtils.ValidPredictor(p) && Api.Respond(num, p, u).Ok?
    ensures var res := Api.Respond(num, p, u).value;
            res.fftPreview.Some? &&
            |ResultsPage.PrepareFreqData(res.fftPreview)| == |res.fftPreview.value.freq|
                == Api.PreviewLength(res.meta.samples) / 2 + 1
  {
    Api.RespondOk(num, p, u);
    Api.WindowsAnalyzed(num, p, u);
    var t := Api.CheckUpload(u).value;
    Api.FftPreviewShape(num, t);
    ResultsPage.FreqDataKeepsAllWithoutHighBin(Api.FftPreviewOf(num, t));
  }

  /** The distribution bars of a successful response add up to exactly 100% as real numbers. */
  lemma ServerDistributionFills(num: Features.Numerics, p: HarUtils.Predictor, u: Api.Upload)
    requires Features.ValidNumerics(num) && HarUtils.ValidPredictor(p) && Api.Respond(num, p, u).Ok?
    ensures var res := Api.Respond(num, p, u).value;
            ResultsPage.TotalWidth(ResultsPage.PrepareDistribution(res.predictionDistribution, res.meta.windowsAnalyzed)) == 100.0
  {
    Api.MajorityAndDistribution(num, p, u, "");
    var res := Api.Respond(num, p, u).value;
    ResultsPage.DistributionWidthsSumTo100(res.predictionDistribution.value, res.meta.windowsAnalyzed);
  }

  /** The probability chart appears exactly when the model has `predict_proba` and the predictor an `activity_mapping`. */
  lemma ServerProbabilityChart(num: Features.Numerics, p: HarUtils.Predictor, u: Api.Upload)
    requires Features.ValidNumerics(num) && HarUtils.ValidPredictor(p) && Api.Respond(num, p, u).Ok?
    ensures var res := Api.Respond(num, p, u).value;
            ResultsPage.ShowsProbabilityChart(res.probabilities)
            <==> p.averageProbabilities.Some? && p.mapping.Some?
  {
    Api.RespondOk(num, p, u);
    var t := Api.CheckUpload(u).value;
    var rows := Api.ServerFeatureRows(num, t);
    var res := Api.Respond(num, p, u).value;
    assert res.probabilities == Api.Probabilities(p, rows).1;
    Api.ProbabilitiesNonEmpty(p, rows);
  }

  /** Without `predict_proba` the server answers with confidence 0, so the results page shows no confidence badge. */
  lemma ServerConfidenceBadge(num: Features.Numerics, p: HarUtils.Predictor, u: Api.Upload)
    requires Features.ValidNumerics(num) && HarUtils.ValidPredictor(p) && Api.Respond(num, p, u).Ok?
    requires p.averageProbabilities.None?
    ensures var res := Api.Respond(num, p, u).value;
            res.confidence == 0.0 && !ResultsPage.ShowsConfidenceBadge(res.confidence)
  {
    Api.RespondOk(num, p, u);
    var t := Api.CheckUpload(u).value;
    var rows := Api.ServerFeatureRows(num, t);
    assert Api.Respond(num, p, u).value.confidence == Api.Probabilities(p, rows).0;
  }

  /** The page's gate and the server's limit are the same number of bytes. */
  lemma SizeLimitsAgree()
    ensures UploadPage.MaxSize == Api.MaxFileSize
  {
  }

  /** A file the page lets through its size gate is never refused by the server as too large. */
  lemma SelectedFileNotTooLarge(file: UploadPage.FileInfo, u: Api.Upload)
    requires file.size <= UploadPage.MaxSize && u.size == file.size
    ensures Api.CheckUpload(u) != Err(Api.FileTooLarge)
  {
  }

  /**
   * The page has no lower bound: an empty file dropped on a fresh page is
   * selected and sent, and the server then refuses it with a 400.
   */
  method EmptyFileReachesServer(file: UploadPage.FileInfo, u: Api.Upload) returns (request: Option<UploadPage.FileInfo>)
    requires file.size == 0 && u.filename == file.name && u.size == file.size && Api.ExtensionAllowed(file.name)
    ensures request == Some(file)
    ensures Api.CheckUpload(u) == Err(Api.EmptyFile) && Api.Status(Api.EmptyFile) == 400
  {
    var page := new UploadPage.UploadPage<PredictionResult>();
    page.OnDrop([file], []);
    request := page.StartAnalyze();
  }

  /** The server lower-cases the extension, the offline loader does not: "a.CSV" is accepted by one and refused by the other. */
  lemma UpperCaseNameContrast(t: Windowing.Table)
    ensures Api.ExtensionAllowed("a.CSV")
    ensures !HarUtils.LoadableName("a.CSV") && HarUtils.Load("a.CSV", Some(t)) == None
  {
    Api.UpperCaseExtensionAccepted();
    assert "a.CSV"[1..] == ".CSV";
    HarUtils.LoadIsCaseSensitive("a.CSV", Some(t));
  }
}
