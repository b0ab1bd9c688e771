/**
 * The shape of the feature vector computed for one window. api.py and
 * har_utils.py carry identical copies of this code; it is modelled once.
 * Feature values are not computed: each entry names the statistic that
 * produces it, or is `Zero` where the code returns a literal 0.0. What is
 * exact is which branch is taken and how many entries each part yields.
 */
module Features {
  import opened Wrappers
  import opened Windowing

  datatype Feature =
    | Zero
    | Mean | Std | Mad | Maximum | Minimum | Sma | Energy | Iqr | Entropy
    | ArCoeff(k: nat)
    | Skewness | Kurtosis
    | MeanFreq | MaxFreq | PsdSkewness | PsdKurtosis
    | Band(b: nat)

  /** `[0.0] * n`. */
  function Zeros(n: nat): (z: seq<Feature>)
    ensures |z| == n
    ensures forall i :: 0 <= i < n ==> z[i] == Zero
  {
    seq(n, i => Zero)
  }

  const AutoregressiveOrder: nat := 4
  const BandCount: nat := 8

  /** `ar_coeffs_lstsq(x, order)` for a signal of n samples. */
  function ArCoeffs(n: nat, order: nat): (r: seq<Feature>)
    ensures |r| == order
    ensures n <= order ==> r == Zeros(order)
    ensures n > order ==> forall k :: 0 <= k < order ==> r[k] == ArCoeff(k + 1)
  {
    if n <= order then Zeros(order)
    else seq(order, k requires 0 <= k < order => ArCoeff(k + 1))
  }

  /** `np.all(sig == sig[0])`. */
  predicate IsConstant(sig: seq<real>)
    requires |sig| > 0
  {
    forall i :: 0 <= i < |sig| ==> sig[i] == sig[0]
  }

  /** Comparing with the first sample decides whether every two samples are equal. */
  lemma ConstantMeansAllEqual(sig: seq<real>)
    requires |sig| > 0
    ensures IsConstant(sig) <==> forall i, j :: 0 <= i < |sig| && 0 <= j < |sig| ==> sig[i] == sig[j]
  {
  }

  /** `time_domain_features`: 16 zeros for a constant signal, else nine statistics, four AR coefficients, skew and kurtosis. */
  function TimeDomainFeatures(sig: seq<real>): (r: seq<Feature>)
    requires |sig| > 0
    ensures IsConstant(sig) ==> r == Zeros(16)
    ensures !IsConstant(sig) ==> |r| == 15 && r[0] == Mean && r[14] == Kurtosis
  {
    if IsConstant(sig) then Zeros(16)
    else [Mean, Std, Mad, Maximum, Minimum, Sma, Energy, Iqr, Entropy]
         + ArCoeffs(|sig|, AutoregressiveOrder)
         + [Skewness, Kurtosis]
  }

  /**
   * `psd.sum() == 0` for `psd = |rfft(sig * np.hanning(N))|**2`, in exact arithmetic:
   * the Hann window is `[1.0]` for one sample and otherwise zero exactly at both
   * ends, and a discrete Fourier transform vanishes only on the zero vector.
   */
  predicate SpectrumVanishes(sig: seq<real>): (ok: bool)
    requires |sig| > 0
    ensures (forall i :: 0 <= i < |sig| ==> sig[i] == 0.0) ==> ok
    ensures |sig| == 2 ==> ok
    ensures |sig| >= 3 && ok ==> sig[1] == 0.0
  {
    if |sig| == 1 then sig[0] == 0.0
    else forall i :: 0 < i < |sig| - 1 ==> sig[i] == 0.0
  }

  function Bands(n: nat): (r: seq<Feature>)
    ensures |r| == n
  {
    seq(n, b requires 0 <= b < n => Band(b))
  }

  /** `freq_domain_features`: 12 zeros for an empty signal or a vanishing spectrum, else four statistics and eight band powers. */
  function FreqDomainFeatures(sig: seq<real>): (r: seq<Feature>)
    ensures |r| == 12
    ensures (|sig| == 0 || SpectrumVanishes(sig)) ==> r == Zeros(12)
  {
    if |sig| == 0 then Zeros(12)
    else if SpectrumVanishes(sig) then Zeros(12)
    else [MeanFreq, MaxFreq, PsdSkewness, PsdKurtosis] + Bands(BandCount)
  }

  /** The two-sample Hann window is all zeros: the frequency features of a two-sample signal are always zeros. */
  lemma TwoSampleSpectrumVanishes(sig: seq<real>)
    requires |sig| == 2
    ensures FreqDomainFeatures(sig) == Zeros(12)
  {
  }

  /** With three or more samples the spectrum vanishes only when every interior sample is zero, so a non-zero constant signal has a spectrum. */
  lemma ConstantSignalHasSpectrum(sig: seq<real>)
    requires |sig| >= 3 && IsConstant(sig) && sig[0] != 0.0
    ensures TimeDomainFeatures(sig) == Zeros(16)
    ensures FreqDomainFeatures(sig) == [MeanFreq, MaxFreq, PsdSkewness, PsdKurtosis] + Bands(BandCount)
  {
    assert sig[1] != 0.0;
  }

  /** What one signal contributes: `fv += time_domain_features(s)` then `fv += freq_domain_features(s)`. */
  function BlockFeatures(sig: seq<real>): seq<Feature>
    requires |sig| > 0
  {
    TimeDomainFeatures(sig) + FreqDomainFeatures(sig)
  }

  /** A constant signal contributes 28 entries, any other 27. */
  lemma BlockFeaturesLength(sig: seq<real>)
    requires |sig| > 0
    ensures |BlockFeatures(sig)| == if IsConstant(sig) then 28 else 27
  {
  }

  /** The dictionary `signals_win` built by `process_single_window`, one field per key. */
  datatype SignalsWindow = SignalsWindow(
    bodyAcc: Window, gravityAcc: Window, bodyAccJerk: Window, bodyGyro: Window, bodyGyroJerk: Window,
    bodyAccMag: seq<real>, gravityAccMag: seq<real>, bodyAccJerkMag: seq<real>,
    bodyGyroMag: seq<real>, bodyGyroJerkMag: seq<real>)

  /** `tri_signals`, in order. */
  function TriSignals(w: SignalsWindow): (r: seq<Window>)
    ensures |r| == 5
  {
    [w.bodyAcc, w.gravityAcc, w.bodyAccJerk, w.bodyGyro, w.bodyGyroJerk]
  }

  /** `mag_signals`, in order. */
  function MagSignals(w: SignalsWindow): (r: seq<seq<real>>)
    ensures |r| == 5
  {
    [w.bodyAccMag, w.gravityAccMag, w.bodyAccJerkMag, w.bodyGyroMag, w.bodyGyroJerkMag]
  }

  /** `X[:, ax]`. */
  function AxisColumn(x: Window, ax: nat): (col: seq<real>)
    requires ax < 3
    ensures |col| == |x|
  {
    seq(|x|, i requires 0 <= i < |x| => if ax == 0 then x[i].x else if ax == 1 then x[i].y else x[i].z)
  }

  /** None of the ten signals is empty (`sig[0]` in `time_domain_features` needs a sample). */
  ghost predicate NonEmptySignals(w: SignalsWindow)
  {
    (forall n :: 0 <= n < 5 ==> |TriSignals(w)[n]| > 0) &&
    (forall m :: 0 <= m < 5 ==> |MagSignals(w)[m]| > 0)
  }

  /** The three axis columns of a triaxial signal, x, y, z. */
  function Axes(x: Window): (cols: seq<seq<real>>)
    ensures |cols| == 3
  {
    [AxisColumn(x, 0), AxisColumn(x, 1), AxisColumn(x, 2)]
  }

  /** The twenty signals in the order `features_from_window` visits them: 5 x 3 axes, then 5 magnitudes. */
  function Blocks(w: SignalsWindow): (b: seq<seq<real>>)
    ensures |b| == 20
  {
    Axes(w.bodyAcc) + Axes(w.gravityAcc) + Axes(w.bodyAccJerk) + Axes(w.bodyGyro) + Axes(w.bodyGyroJerk)
    + MagSignals(w)
  }

  /** Where each signal sits in `Blocks`. */
  lemma BlocksLayout(w: SignalsWindow, n: nat, ax: nat)
    requires n < 5 && ax < 3
    ensures Blocks(w)[3 * n + ax] == AxisColumn(TriSignals(w)[n], ax)
    ensures Blocks(w)[15 + n] == MagSignals(w)[n]
  {
    assert Blocks(w)[3 * n + ax] == Axes(TriSignals(w)[n])[ax];
  }

  ghost predicate AllNonEmpty(blocks: seq<seq<real>>)
  {
    forall i :: 0 <= i < |blocks| ==> |blocks[i]| > 0
  }

  lemma BlocksNonEmpty(w: SignalsWindow)
    requires NonEmptySignals(w)
    ensures AllNonEmpty(Blocks(w))
  {
    var b := Blocks(w);
    forall i | 0 <= i < 20 ensures |b[i]| > 0 {
      if i < 15 {
        BlocksLayout(w, i / 3, i % 3);
      } else {
        BlocksLayout(w, i - 15, 0);
      }
    }
  }

  /** The features of the first k signals of a list, concatenated in order. */
  function ConcatUpTo(blocks: seq<seq<real>>, k: nat): seq<Feature>
    requires AllNonEmpty(blocks) && k <= |blocks|
  {
    if k == 0 then [] else ConcatUpTo(blocks, k - 1) + BlockFeatures(blocks[k - 1])
  }

  /** One iteration of the accumulation: appending signal k's two parts extends the prefix by one signal. */
  lemma ConcatStep(blocks: seq<seq<real>>, k: nat, fv: seq<Feature>)
    requires AllNonEmpty(blocks) && k < |blocks| && fv == ConcatUpTo(blocks, k)
    ensures (fv + TimeDomainFeatures(blocks[k])) + FreqDomainFeatures(blocks[k]) == ConcatUpTo(blocks, k + 1)
  {
    var t, f := TimeDomainFeatures(blocks[k]), FreqDomainFeatures(blocks[k]);
    assert ConcatUpTo(blocks, k + 1) == fv + (t + f);
    assert (fv + t) + f == fv + (t + f);
  }

  /** The number of constant signals among the first k of a list. */
  function ConstantCount(blocks: seq<seq<real>>, k: nat): nat
    requires AllNonEmpty(blocks) && k <= |blocks|
  {
    if k == 0 then 0 else ConstantCount(blocks, k - 1) + (if IsConstant(blocks[k - 1]) then 1 else 0)
  }

  lemma {:induction false} ConcatLength(blocks: seq<seq<real>>, k: nat)
    requires AllNonEmpty(blocks) && k <= |blocks|
    ensures |ConcatUpTo(blocks, k)| == 27 * k + ConstantCount(blocks, k)
  {
    if k > 0 {
      var n := k - 1;
      ConcatLength(blocks, n);
      ConcatLengthStep(blocks, n, |ConcatUpTo(blocks, n)|, ConstantCount(blocks, n));
    }
  }

  lemma ConcatLengthStep(blocks: seq<seq<real>>, n: nat, len: nat, count: nat)
    requires AllNonEmpty(blocks) && n < |blocks|
    requires len == |ConcatUpTo(blocks, n)| && count == ConstantCount(blocks, n) && len == 27 * n + count
    ensures |ConcatUpTo(blocks, n + 1)| == 27 * (n + 1) + ConstantCount(blocks, n + 1)
  {
    BlockFeaturesLength(blocks[n]);
  }

  /** What `features_from_window` returns for a window: between 540 and 560 entries, depending on the data. */
  function FeatureVector(w: SignalsWindow): (fv: seq<Feature>)
    requires NonEmptySignals(w)
    ensures 540 <= |fv| <= 560
  {
    BlocksNonEmpty(w);
    ConcatLength(Blocks(w), 20);
    ConstantCountBound(Blocks(w), 20);
    ConcatUpTo(Blocks(w), 20)
  }

  /** How many of the twenty signals of a window are constant. */
  function ConstantSignals(w: SignalsWindow): nat
    requires NonEmptySignals(w)
  {
    BlocksNonEmpty(w);
    ConstantCount(Blocks(w), 20)
  }

  /** 540 entries, plus one for every constant signal. */
  lemma FeatureVectorLength(w: SignalsWindow)
    requires NonEmptySignals(w)
    ensures |FeatureVector(w)| == 540 + ConstantSignals(w)
  {
    BlocksNonEmpty(w);
    ConcatLength(Blocks(w), 20);
  }

  lemma {:induction false} ConstantCountBound(blocks: seq<seq<real>>, k: nat)
    requires AllNonEmpty(blocks) && k <= |blocks|
    ensures ConstantCount(blocks, k) <= k
  {
    if k > 0 {
      ConstantCountBound(blocks, k - 1);
    }
  }

  /** `features_from_window`: the nested loops that accumulate `fv`. */
  method FeaturesFromWindow(w: SignalsWindow) returns (fv: seq<Feature>)
    requires NonEmptySignals(w)
    ensures fv == FeatureVector(w)
  {
    ghost var blocks := Blocks(w);
    BlocksNonEmpty(w);
    fv := [];
    var tri := TriSignals(w);
    for n := 0 to 5
      invariant fv == ConcatUpTo(blocks, 3 * n)
    {
      var x := tri[n];
      for ax := 0 to 3
        invariant fv == ConcatUpTo(blocks, 3 * n + ax)
      {
        var s := AxisColumn(x, ax);
        BlocksLayout(w, n, ax);
        ConcatStep(blocks, 3 * n + ax, fv);
        fv := fv + TimeDomainFeatures(s);
        fv := fv + FreqDomainFeatures(s);
      }
    }
    var mags := MagSignals(w);
    for m := 0 to 5
      invariant fv == ConcatUpTo(blocks, 15 + m)
    {
      var s := mags[m];
      BlocksLayout(w, m, 0);
      ConcatStep(blocks, 15 + m, fv);
      fv := fv + TimeDomainFeatures(s);
      fv := fv + FreqDomainFeatures(s);
    }
  }

  /** The per-window loop: one feature row per window, window i paired with gyroscope window i. */
  method ExtractAll(acc: seq<Window>, gyro: seq<Window>, derive: (Window, Window) -> SignalsWindow)
    returns (rows: seq<seq<Feature>>)
    requires |gyro| >= |acc|
    requires forall i :: 0 <= i < |acc| ==> NonEmptySignals(derive(acc[i], gyro[i]))
    ensures |rows| == |acc|
    ensures forall i :: 0 <= i < |acc| ==> rows[i] == FeatureVector(derive(acc[i], gyro[i]))
  {
    rows := [];
    for i := 0 to |acc|
      invariant |rows| == i
      invariant forall k :: 0 <= k < i ==> rows[k] == FeatureVector(derive(acc[k], gyro[k]))
    {
      var features := FeaturesFromWindow(derive(acc[i], gyro[i]));
      rows := rows + [features];
    }
  }

  /**
   * The numerical steps this model does not compute: the filtering, jerk and
   * magnitude signals of `process_single_window`, and the magnitude spectrum
   * `|rfft(x * hanning(N))|` of the preview.
   */
  datatype Numerics = Numerics(derive: (Window, Window) -> SignalsWindow, spectrum: seq<real> -> seq<real>)

  /**
   * What those numerical steps guarantee: the derived signals of two 128-sample
   * windows have samples, and a real FFT of N samples has N / 2 + 1 bins.
   */
  ghost predicate ValidNumerics(num: Numerics)
  {
    (forall a: Window, g: Window :: |a| == WindowSize && |g| == WindowSize ==> NonEmptySignals(num.derive(a, g))) &&
    (forall s: seq<real> :: |num.spectrum(s)| == |s| / 2 + 1)
  }

  /** `np.array(rows).shape[1]` for a non-empty list of rows; None when the rows are ragged and numpy refuses them. */
  function MatrixWidth(rows: seq<seq<Feature>>): (width: Option<nat>)
    requires |rows| > 0
    ensures width.Some? <==> forall i :: 0 <= i < |rows| ==> |rows[i]| == |rows[0]|
    ensures width.Some? ==> width.value == |rows[0]|
  {
    if forall i :: 0 <= i < |rows| ==> |rows[i]| == |rows[0]| then Some(|rows[0]|) else None
  }

  /** Two windows that differ in how many constant signals they have give rows numpy cannot stack. */
  lemma ConstantSignalsMakeRowsRagged(w1: SignalsWindow, w2: SignalsWindow)
    requires NonEmptySignals(w1) && NonEmptySignals(w2)
    requires ConstantSignals(w1) != ConstantSignals(w2)
    ensures MatrixWidth([FeatureVector(w1), FeatureVector(w2)]) == None
  {
    FeatureVectorLength(w1);
    FeatureVectorLength(w2);
    var rows := [FeatureVector(w1), FeatureVector(w2)];
    assert |rows[1]| != |rows[0]|;
  }
}
