/**
 * The JSON body that `POST /api/predict` returns and that the results page
 * reads. JSON objects are kept as sequences of (key, value) pairs so that
 * their insertion order, which both Python dicts and `Object.entries` keep,
 * is part of the value.
 */
module Payload {
  import opened Wrappers

  /** `signals_preview`: seven parallel arrays; nothing forces them to have equal lengths. */
  datatype SignalsPreview = SignalsPreview(
    t: seq<real>,
    accX: seq<real>, accY: seq<real>, accZ: seq<real>,
    gyroX: seq<real>, gyroY: seq<real>, gyroZ: seq<real>)

  /** `fft_preview`: a frequency axis and three magnitude arrays. */
  datatype FftPreview = FftPreview(freq: seq<real>, magAccX: seq<real>, magAccY: seq<real>, magAccZ: seq<real>)

  datatype Meta = Meta(samples: nat, channels: nat, samplingRate: nat, windowsAnalyzed: nat, filename: string)

  datatype PredictionResult = PredictionResult(
    activity: string,
    confidence: real,
    probabilities: Option<seq<(string, real)>>,
    meta: Meta,
    signalsPreview: Option<SignalsPreview>,
    fftPreview: Option<FftPreview>,
    allPredictions: seq<string>,
    predictionDistribution: Option<seq<(string, nat)>>)

  /** The keys of a JSON object, in order. */
  function Keys<V>(entries: seq<(string, V)>): (ks: seq<string>)
    ensures |ks| == |entries|
    ensures forall i :: 0 <= i < |entries| ==> ks[i] == entries[i].0
  {
    seq(|entries|, i requires 0 <= i < |entries| => entries[i].0)
  }

  /** The sum of the counts of a JSON object of counts. */
  function CountTotal(entries: seq<(string, nat)>): nat
  {
    if entries == [] then 0 else entries[0].1 + CountTotal(entries[1..])
  }

  lemma {:induction false} CountTotalAppend(entries: seq<(string, nat)>, e: (string, nat))
    ensures CountTotal(entries + [e]) == CountTotal(entries) + e.1
  {
    if entries != [] {
      assert (entries + [e])[1..] == entries[1..] + [e];
      CountTotalAppend(entries[1..], e);
    }
  }
}
