/**
 * The data preparation of the results page: chart rows for the time and
 * frequency views, the class-probability bars, the display-label rule, the
 * confidence badge, the signal selector and the window-distribution bars.
 * Everything here is a pure function of the prediction payload.
 */
module ResultsPage {
  import opened Wrappers
  import opened Text
  import opened Payload

  /** Reading `array[index]` in JavaScript: `undefined` (None) past the end. */
  function At(s: seq<real>, i: nat): (c: Option<real>)
    ensures c.Some? <==> i < |s|
    ensures i < |s| ==> c == Some(s[i])
  {
    if i < |s| then Some(s[i]) else None
  }

  // ---------------------------------------------------------------- time view

  /** The two `<select>` boxes of the time view: signal `acc`/`gyro` and axis `x`/`y`/`z`. */
  datatype Sensor = Acc | Gyro
  datatype Axis = X | Y | Z

  /** One channel of the signal preview. */
  function Channel(sp: SignalsPreview, s: Sensor, a: Axis): seq<real>
  {
    match (s, a)
    case (Acc, X) => sp.accX
    case (Acc, Y) => sp.accY
    case (Acc, Z) => sp.accZ
    case (Gyro, X) => sp.gyroX
    case (Gyro, Y) => sp.gyroY
    case (Gyro, Z) => sp.gyroZ
  }

  /** A row of the time chart: the formatted time and six channel values, each possibly `undefined`. */
  datatype TimeRow = TimeRow(
    time: Fixed,
    accX: Option<real>, accY: Option<real>, accZ: Option<real>,
    gyroX: Option<real>, gyroY: Option<real>, gyroZ: Option<real>)

  function Cell(row: TimeRow, s: Sensor, a: Axis): Option<real>
  {
    match (s, a)
    case (Acc, X) => row.accX
    case (Acc, Y) => row.accY
    case (Acc, Z) => row.accZ
    case (Gyro, X) => row.gyroX
    case (Gyro, Y) => row.gyroY
    case (Gyro, Z) => row.gyroZ
  }

  function TimeRowAt(sp: SignalsPreview, i: nat): TimeRow
    requires i < |sp.t|
  {
    TimeRow(Fixed(sp.t[i], 3),
            At(sp.accX, i), At(sp.accY, i), At(sp.accZ, i),
            At(sp.gyroX, i), At(sp.gyroY, i), At(sp.gyroZ, i))
  }

  /** `prepareTimeData`: one row per time stamp, channels read at the same index. */
  function PrepareTimeData(preview: Option<SignalsPreview>): (rows: seq<TimeRow>)
    ensures preview.None? ==> rows == []
    ensures preview.Some? ==> |rows| == |preview.value.t|
    ensures preview.Some? ==> forall i :: 0 <= i < |rows| ==> rows[i].time == Fixed(preview.value.t[i], 3)
    ensures preview.Some? ==> forall i, s, a :: 0 <= i < |rows| ==> Cell(rows[i], s, a) == At(Channel(preview.value, s, a), i)
  {
    match preview
    case None => []
    case Some(sp) => seq(|sp.t|, i requires 0 <= i < |sp.t| => TimeRowAt(sp, i))
  }

  /** Every channel has a value for every time stamp. */
  ghost predicate ChannelsCoverTime(sp: SignalsPreview)
  {
    forall s, a :: |Channel(sp, s, a)| >= |sp.t|
  }

  /** No cell of the chart is `undefined`. */
  ghost predicate AllCellsDefined(rows: seq<TimeRow>)
  {
    forall i, s, a :: 0 <= i < |rows| ==> Cell(rows[i], s, a).Some?
  }

  /** The chart has no `undefined` cell exactly when no channel is shorter than `t`. */
  lemma TimeDataDefinedIff(sp: SignalsPreview)
    ensures AllCellsDefined(PrepareTimeData(Some(sp))) <==> ChannelsCoverTime(sp)
  {
    var rows := PrepareTimeData(Some(sp));
    if ChannelsCoverTime(sp) {
      forall i, s, a | 0 <= i < |rows| ensures Cell(rows[i], s, a).Some? {
        assert |Channel(sp, s, a)| >= |sp.t|;
      }
    } else {
      var s, a :| |Channel(sp, s, a)| < |sp.t|;
      var i := |Channel(sp, s, a)|;
      assert Cell(rows[i], s, a) == None;
    }
  }

  /** A short channel shows up as `undefined` cells from its length on: the rows are not shortened. */
  lemma TimeDataShortChannel(sp: SignalsPreview, s: Sensor, a: Axis, i: nat)
    requires |Channel(sp, s, a)| <= i < |sp.t|
    ensures |PrepareTimeData(Some(sp))| == |sp.t|
    ensures Cell(PrepareTimeData(Some(sp))[i], s, a) == None
  {
  }

  /** Reading one channel back out of the chart rows gives that channel's own first `|t|` values. */
  lemma TimeDataColumn(sp: SignalsPreview, s: Sensor, a: Axis)
    requires ChannelsCoverTime(sp)
    ensures var rows := PrepareTimeData(Some(sp));
            |rows| == |sp.t| &&
            forall i :: 0 <= i < |rows| ==> Cell(rows[i], s, a) == Some(Channel(sp, s, a)[i])
  {
    assert |Channel(sp, s, a)| >= |sp.t|;
  }

  /** The `<option>` values of the two selects. */
  function SensorValue(s: Sensor): string
  {
    match s
    case Acc => "acc"
    case Gyro => "gyro"
  }

  function AxisValue(a: Axis): string
  {
    match a
    case X => "x"
    case Y => "y"
    case Z => "z"
  }

  /** The six channel keys of a time row. */
  const TimeRowFields: set<string> := {"acc_x", "acc_y", "acc_z", "gyro_x", "gyro_y", "gyro_z"}

  /** The field of a time row that holds a channel. */
  function FieldName(s: Sensor, a: Axis): string
  {
    match (s, a)
    case (Acc, X) => "acc_x"
    case (Acc, Y) => "acc_y"
    case (Acc, Z) => "acc_z"
    case (Gyro, X) => "gyro_x"
    case (Gyro, Y) => "gyro_y"
    case (Gyro, Z) => "gyro_z"
  }

  /** `row[key]` for a time row: `undefined` for a key that is not one of its channel fields. */
  function Field(row: TimeRow, key: string): Option<real>
  {
    if key == "acc_x" then row.accX
    else if key == "acc_y" then row.accY
    else if key == "acc_z" then row.accZ
    else if key == "gyro_x" then row.gyroX
    else if key == "gyro_y" then row.gyroY
    else if key == "gyro_z" then row.gyroZ
    else None
  }

  /** `getCurrentSignalKey`: `${selectedSignal}_${selectedAxis}`. */
  function CurrentSignalKey(s: Sensor, a: Axis): (key: string)
    ensures key == FieldName(s, a)
    ensures key in TimeRowFields
    ensures forall row :: Field(row, key) == Cell(row, s, a)
  {
    SignalKeySpelling(s, a);
    SensorValue(s) + "_" + AxisValue(a)
  }

  lemma SignalKeySpelling(s: Sensor, a: Axis)
    ensures SensorValue(s) + "_" + AxisValue(a) == FieldName(s, a)
  {
    match (s, a)
    case (Acc, X) => assert "acc" + "_" + "x" == "acc_x";
    case (Acc, Y) => assert "acc" + "_" + "y" == "acc_y";
    case (Acc, Z) => assert "acc" + "_" + "z" == "acc_z";
    case (Gyro, X) => assert "gyro" + "_" + "x" == "gyro_x";
    case (Gyro, Y) => assert "gyro" + "_" + "y" == "gyro_y";
    case (Gyro, Z) => assert "gyro" + "_" + "z" == "gyro_z";
  }

  /** Different selections plot different channels. */
  lemma CurrentSignalKeyInjective(s1: Sensor, a1: Axis, s2: Sensor, a2: Axis)
    requires CurrentSignalKey(s1, a1) == CurrentSignalKey(s2, a2)
    ensures s1 == s2 && a1 == a2
  {
    var k1, k2 := CurrentSignalKey(s1, a1), CurrentSignalKey(s2, a2);
    assert k1[0] == k2[0];
    if s1 == s2 {
      assert k1[|SensorValue(s1)| + 1] == k2[|SensorValue(s2)| + 1];
    }
  }

  /** The line drawn for a selection shows, at sample i, the selected channel's value at i. */
  lemma SelectedLineFollowsChannel(sp: SignalsPreview, s: Sensor, a: Axis, i: nat)
    requires i < |sp.t|
    ensures Field(PrepareTimeData(Some(sp))[i], CurrentSignalKey(s, a)) == At(Channel(sp, s, a), i)
  {
    var rows := PrepareTimeData(Some(sp));
    assert Cell(rows[i], s, a) == At(Channel(sp, s, a), i);
  }

  // ----------------------------------------------------------- frequency view

  /** The axis cut of the frequency chart, in Hz. */
  const MaxChartFrequency: real := 25.0

  /** `xs.findIndex(f => f > limit)`: the first index above the limit, or -1. */
  function FindIndexAbove(xs: seq<real>, limit: real): (k: int)
    ensures -1 <= k < |xs|
    ensures k == -1 <==> forall i :: 0 <= i < |xs| ==> xs[i] <= limit
    ensures 0 <= k ==> xs[k] > limit && forall i :: 0 <= i < k ==> xs[i] <= limit
  {
    if xs == [] then -1
    else if xs[0] > limit then 0
    else
      var k := FindIndexAbove(xs[1..], limit);
      if k == -1 then -1 else k + 1
  }

  /**
   * `limit = maxFreqIndex > 0 ? maxFreqIndex : freq.length`: the axis is cut
   * just before the first bin above 25 Hz, unless there is none or it is bin 0.
   */
  function FreqLimit(freq: seq<real>): (limit: nat)
    ensures limit <= |freq|
    ensures limit < |freq| ==>
              0 < limit && freq[limit] > MaxChartFrequency &&
              forall i :: 0 <= i < limit ==> freq[i] <= MaxChartFrequency
    ensures limit == |freq| <==>
              (forall i :: 0 <= i < |freq| ==> freq[i] <= MaxChartFrequency) ||
              freq[0] > MaxChartFrequency
  {
    var k := FindIndexAbove(freq, MaxChartFrequency);
    if k > 0 then k else |freq|
  }

  /** A row of the frequency chart. */
  datatype FreqRow = FreqRow(freq: Fixed, magX: Option<real>, magY: Option<real>, magZ: Option<real>)

  function FreqRowAt(fp: FftPreview, i: nat): FreqRow
    requires i < |fp.freq|
  {
    FreqRow(Fixed(fp.freq[i], 2), At(fp.magAccX, i), At(fp.magAccY, i), At(fp.magAccZ, i))
  }

  /** `prepareFreqData`: a prefix of the frequency axis, each bin paired with the magnitudes at its index. */
  function PrepareFreqData(fft: Option<FftPreview>): (rows: seq<FreqRow>)
    ensures fft.None? ==> rows == []
    ensures fft.Some? ==> |rows| <= |fft.value.freq|
    ensures fft.Some? ==> forall i :: 0 <= i < |rows| ==>
              rows[i].freq == Fixed(fft.value.freq[i], 2) &&
              rows[i].magX == At(fft.value.magAccX, i) &&
              rows[i].magY == At(fft.value.magAccY, i) &&
              rows[i].magZ == At(fft.value.magAccZ, i)
  {
    match fft
    case None => []
    case Some(fp) =>
      var limit := FreqLimit(fp.freq);
      seq(limit, i requires 0 <= i < limit => FreqRowAt(fp, i))
  }

  /** The chart stops just before the first bin above 25 Hz when that bin is not the first one. */
  lemma FreqDataCutAtFirstHighBin(fp: FftPreview, k: nat)
    requires 0 < k < |fp.freq|
    requires fp.freq[k] > MaxChartFrequency
    requires forall i :: 0 <= i < k ==> fp.freq[i] <= MaxChartFrequency
    ensures |PrepareFreqData(Some(fp))| == k
  {
    var j := FindIndexAbove(fp.freq, MaxChartFrequency);
    assert j != -1;
  }

  /** No bin above 25 Hz: the whole axis is kept. */
  lemma FreqDataKeepsAllWithoutHighBin(fp: FftPreview)
    requires forall i :: 0 <= i < |fp.freq| ==> fp.freq[i] <= MaxChartFrequency
    ensures |PrepareFreqData(Some(fp))| == |fp.freq|
  {
  }

  /** The first bin above 25 Hz at index 0: `maxFreqIndex > 0` fails, and the whole axis is kept. */
  lemma FreqDataKeepsAllWhenFirstBinHigh(fp: FftPreview)
    requires |fp.freq| > 0 && fp.freq[0] > MaxChartFrequency
    ensures |PrepareFreqData(Some(fp))| == |fp.freq|
    ensures PrepareFreqData(Some(fp))[0].freq.value > MaxChartFrequency
  {
  }

  /** Unless the first bin is above 25 Hz, no kept bin is above 25 Hz. */
  lemma FreqDataBelowCutoff(fp: FftPreview)
    requires !(|fp.freq| > 0 && fp.freq[0] > MaxChartFrequency)
    ensures forall row :: row in PrepareFreqData(Some(fp)) ==> row.freq.value <= MaxChartFrequency
  {
    var rows := PrepareFreqData(Some(fp));
    forall row | row in rows ensures row.freq.value <= MaxChartFrequency {
      var i :| 0 <= i < |rows| && rows[i] == row;
      assert rows[i].freq.value == fp.freq[i];
    }
  }

  // ------------------------------------------------------------ display label

  function SpaceForUnderscore(c: char): char
  {
    if c == '_' then ' ' else c
  }

  /** `s.replace(/_/g, ' ')`. */
  function ReplaceUnderscores(s: string): (r: string)
    ensures |r| == |s|
    ensures forall i :: 0 <= i < |s| ==> r[i] == SpaceForUnderscore(s[i])
  {
    if s == [] then [] else [SpaceForUnderscore(s[0])] + ReplaceUnderscores(s[1..])
  }

  /** `s.replace(/_/g, ' ').toUpperCase()`: the label rule of the heading, the bars and the distribution. */
  function DisplayLabel(s: string): (r: string)
    ensures |r| == |s|
    ensures '_' !in r
    ensures forall i :: 0 <= i < |s| ==> r[i] == UpperChar(SpaceForUnderscore(s[i]))
  {
    Upper(ReplaceUnderscores(s))
  }

  /** Applying the label rule to a label changes nothing. */
  lemma DisplayLabelIdempotent(s: string)
    ensures DisplayLabel(DisplayLabel(s)) == DisplayLabel(s)
  {
    var d := DisplayLabel(s);
    forall i | 0 <= i < |s| ensures DisplayLabel(d)[i] == d[i] {
      assert d[i] != '_';
    }
  }

  /** The rule is not injective: different keys may share a label. */
  lemma DisplayLabelMerges()
    ensures DisplayLabel("a_b") == DisplayLabel("A B")
  {
    var l, r := DisplayLabel("a_b"), DisplayLabel("A B");
    assert l[0] == 'A' == r[0];
    assert l[1] == ' ' == r[1];
    assert l[2] == 'B' == r[2];
  }

  // ------------------------------------------------------------- probabilities

  /** A bar of the class-probability chart. */
  datatype ProbabilityRow = ProbabilityRow(activity: string, probability: Fixed)

  /** `prepareProbabilityData`: one bar per key of `probabilities`, in `Object.entries` order. */
  function PrepareProbabilityData(probabilities: Option<seq<(string, real)>>): (rows: seq<ProbabilityRow>)
    ensures probabilities.None? ==> rows == []
    ensures probabilities.Some? ==> |rows| == |probabilities.value|
    ensures probabilities.Some? ==> forall i :: 0 <= i < |rows| ==>
              rows[i].activity == DisplayLabel(probabilities.value[i].0) &&
              rows[i].probability == Fixed(probabilities.value[i].1 * 100.0, 2)
  {
    match probabilities
    case None => []
    case Some(entries) =>
      seq(|entries|, i requires 0 <= i < |entries| =>
        ProbabilityRow(DisplayLabel(entries[i].0), Fixed(entries[i].1 * 100.0, 2)))
  }

  /** `probabilityData.length > 0 && (...)`: the chart card is rendered exactly when the payload carries at least one probability. */
  predicate ShowsProbabilityChart(probabilities: Option<seq<(string, real)>>): (shown: bool)
    ensures shown <==> probabilities.Some? && |probabilities.value| > 0
  {
    |PrepareProbabilityData(probabilities)| > 0
  }

  /** The bars keep the keys' order: bar i is key i under the label rule, whatever the values. */
  lemma ProbabilityBarsFollowKeys(entries: seq<(string, real)>)
    ensures var rows := PrepareProbabilityData(Some(entries));
            seq(|rows|, i requires 0 <= i < |rows| => rows[i].activity)
            == seq(|entries|, i requires 0 <= i < |entries| => DisplayLabel(Keys(entries)[i]))
  {
  }

  // ---------------------------------------------------------- confidence badge

  datatype BadgeColor = GreenBadge | YellowBadge | RedBadge

  const HighConfidence: real := 0.8
  const MediumConfidence: real := 0.6

  /** `getConfidenceBadgeColor`: three bands that cover every value. */
  function ConfidenceBadgeColor(confidence: real): (b: BadgeColor)
    ensures b == GreenBadge <==> confidence >= HighConfidence
    ensures b == YellowBadge <==> MediumConfidence <= confidence < HighConfidence
    ensures b == RedBadge <==> confidence < MediumConfidence
  {
    if confidence >= HighConfidence then GreenBadge
    else if confidence >= MediumConfidence then YellowBadge
    else RedBadge
  }

  function BadgeRank(b: BadgeColor): nat
  {
    match b
    case RedBadge => 0
    case YellowBadge => 1
    case GreenBadge => 2
  }

  /** More confidence never gives a worse badge. */
  lemma BadgeMonotone(c1: real, c2: real)
    requires c1 <= c2
    ensures BadgeRank(ConfidenceBadgeColor(c1)) <= BadgeRank(ConfidenceBadgeColor(c2))
  {
  }

  /** `result.confidence > 0 && (...)`: the badge is rendered. */
  predicate ShowsConfidenceBadge(confidence: real)
  {
    confidence > 0.0
  }

  // ---------------------------------------------------------- distribution

  /** The CSS width `${(count / windows_analyzed) * 100}%`, in JavaScript number semantics. */
  datatype Width = Percent(p: real) | Infinity | NotANumber

  function DistributionWidth(count: nat, windowsAnalyzed: nat): (w: Width)
    ensures windowsAnalyzed > 0 ==> w.Percent? && w.p * windowsAnalyzed as real == 100.0 * count as real
    ensures windowsAnalyzed > 0 && count <= windowsAnalyzed ==> 0.0 <= w.p <= 100.0
    ensures windowsAnalyzed == 0 ==> (w == Infinity <==> count > 0) && (w == NotANumber <==> count == 0)
  {
    if windowsAnalyzed == 0 then (if count > 0 then Infinity else NotANumber)
    else Percent(count as real / windowsAnalyzed as real * 100.0)
  }

  /** One line of the distribution card. */
  datatype DistributionRow = DistributionRow(activity: string, width: Width, count: nat)

  /** The distribution card: absent without `prediction_distribution`, else one line per key in order. */
  function PrepareDistribution(distribution: Option<seq<(string, nat)>>, windowsAnalyzed: nat): (rows: seq<DistributionRow>)
    ensures distribution.None? ==> rows == []
    ensures distribution.Some? ==> |rows| == |distribution.value|
    ensures distribution.Some? ==> forall i :: 0 <= i < |rows| ==>
              rows[i] == DistributionRow(DisplayLabel(distribution.value[i].0),
                                         DistributionWidth(distribution.value[i].1, windowsAnalyzed),
                                         distribution.value[i].1)
  {
    match distribution
    case None => []
    case Some(entries) =>
      seq(|entries|, i requires 0 <= i < |entries| =>
        DistributionRow(DisplayLabel(entries[i].0), DistributionWidth(entries[i].1, windowsAnalyzed), entries[i].1))
  }

  /** The sum of the finite widths. */
  function TotalWidth(rows: seq<DistributionRow>): real
  {
    if rows == [] then 0.0
    else (if rows[0].width.Percent? then rows[0].width.p else 0.0) + TotalWidth(rows[1..])
  }

  /** The finite widths of a list of counts, added up without building the lines. */
  function WidthSum(entries: seq<(string, nat)>, windowsAnalyzed: nat): real
  {
    if entries == [] then 0.0
    else
      var w := DistributionWidth(entries[0].1, windowsAnalyzed);
      (if w.Percent? then w.p else 0.0) + WidthSum(entries[1..], windowsAnalyzed)
  }

  lemma {:induction false} TotalWidthIsWidthSum(entries: seq<(string, nat)>, windowsAnalyzed: nat)
    ensures TotalWidth(PrepareDistribution(Some(entries), windowsAnalyzed)) == WidthSum(entries, windowsAnalyzed)
  {
    if entries != [] {
      var rows := PrepareDistribution(Some(entries), windowsAnalyzed);
      assert rows[1..] == PrepareDistribution(Some(entries[1..]), windowsAnalyzed);
      TotalWidthIsWidthSum(entries[1..], windowsAnalyzed);
    }
  }

  /** A width t is 100 times total over w windows, stated without the division. */
  predicate ScaledTo(t: real, w: nat, total: nat)
  {
    t * w as real == 100.0 * total as real
  }

  lemma EntryScaled(count: nat, windowsAnalyzed: nat)
    requires windowsAnalyzed > 0
    ensures DistributionWidth(count, windowsAnalyzed).Percent?
    ensures ScaledTo(DistributionWidth(count, windowsAnalyzed).p, windowsAnalyzed, count)
  {
  }

  lemma {:induction false} WidthSumScales(entries: seq<(string, nat)>, windowsAnalyzed: nat)
    requires windowsAnalyzed > 0
    ensures ScaledTo(WidthSum(entries, windowsAnalyzed), windowsAnalyzed, CountTotal(entries))
  {
    if entries != [] {
      WidthSumScales(entries[1..], windowsAnalyzed);
      EntryScaled(entries[0].1, windowsAnalyzed);
      ScaledSum(WidthSum(entries, windowsAnalyzed), DistributionWidth(entries[0].1, windowsAnalyzed).p,
                WidthSum(entries[1..], windowsAnalyzed), windowsAnalyzed,
                entries[0].1, CountTotal(entries[1..]), CountTotal(entries));
    }
  }

  /** The widths add up to 100 times the total count over the number of windows. */
  lemma TotalWidthScales(entries: seq<(string, nat)>, windowsAnalyzed: nat)
    requires windowsAnalyzed > 0
    ensures ScaledTo(TotalWidth(PrepareDistribution(Some(entries), windowsAnalyzed)), windowsAnalyzed, CountTotal(entries))
  {
    TotalWidthIsWidthSum(entries, windowsAnalyzed);
    WidthSumScales(entries, windowsAnalyzed);
  }

  /** A total of two widths, each scaled to its count, scales to the sum of the counts. */
  lemma ScaledSum(t: real, a: real, b: real, c: nat, x: nat, y: nat, z: nat)
    requires t == a + b && z == x + y
    requires ScaledTo(a, c, x) && ScaledTo(b, c, y)
    ensures ScaledTo(t, c, z)
  {
    assert (a + b) * c as real == a * c as real + b * c as real;
  }

  lemma CancelPositive(x: real, y: real, c: real)
    requires c > 0.0 && x * c == y * c
    ensures x == y
  {
  }

  /** A total scaled to w counts over w windows is 100. */
  lemma FullWidth(t: real, w: nat)
    requires w > 0 && ScaledTo(t, w, w)
    ensures t == 100.0
  {
    CancelPositive(t, 100.0, w as real);
  }

  /** When the counts add up to the number of windows the bars fill exactly 100%, as a sum of reals. */
  lemma DistributionWidthsSumTo100(entries: seq<(string, nat)>, windowsAnalyzed: nat)
    requires windowsAnalyzed > 0 && CountTotal(entries) == windowsAnalyzed
    ensures TotalWidth(PrepareDistribution(Some(entries), windowsAnalyzed)) == 100.0
  {
    TotalWidthScales(entries, windowsAnalyzed);
    FullWidth(TotalWidth(PrepareDistribution(Some(entries), windowsAnalyzed)), windowsAnalyzed);
  }

  /** With zero windows no bar gets a finite width: the source does not guard this division. */
  lemma DistributionZeroWindows(entries: seq<(string, nat)>)
    ensures forall row :: row in PrepareDistribution(Some(entries), 0) ==> !row.width.Percent?
  {
  }
}
