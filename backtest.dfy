/** Step 1 of `predict_district_prices`: walk-forward validation of the three model
    families on one district's history. Twelve-row test windows are cut back from
    the end of the history, each model is fitted on everything before a window and
    scored on the window, and each model's scores are averaged. */
module Backtest {

  import opened Wrappers
  import opened DataLoader

  datatype ModelKind = Prophet | Linear | RandomForest

  /** The forecasting libraries, which the model does not open up.
      `fitPredict(kind, train, dates)` fits model `kind` (Prophet, LinearRegression
      or RandomForestRegressor with its fixed seed) on the rows `train` and predicts
      one price per date; it is `None` when the fit or the prediction raises.
      `futureDates(history, months)` is Prophet's
      `make_future_dataframe(periods=months, freq='MS')`. */
  datatype Models = Models(
    fitPredict: (ModelKind, seq<Record>, seq<Timestamp>) -> Option<seq<real>>,
    futureDates: (seq<Record>, int) -> seq<Timestamp>)

  const WindowLength: int := 12
  /** The score of a window whose fit or prediction failed. */
  const PenaltyError: real := 100.0
  /** The score of every model when the history is too short to validate. */
  const SentinelError: real := 99.9
  /** numpy's float64 machine epsilon, 2^-52: sklearn's floor under |actual|. */
  const Epsilon: real := 0.0000000000000002220446049250313080847263336181640625

  // ---------------------------------------------------------------------------
  // Window depth and the train/test cut
  // ---------------------------------------------------------------------------

  /** How many yearly windows to validate on, from the history length `n`:
      three above five years, one above three years, none otherwise. Every window
      leaves at least 25 training rows. */
  function CvDepth(n: nat): (d: nat)
    ensures d == 0 || d == 1 || d == 3
    ensures d == 0 <==> n <= 36
    ensures d == 3 <==> n > 60
    ensures d > 0 ==> n >= WindowLength * d + 25
  {
    if n > 60 then 3 else if n > 36 then 1 else 0
  }

  /** Python's normalisation of a slice bound: a negative bound counts from the
      end, and the result is clamped to `[0, n]`. */
  function SliceBound(b: int, n: nat): (r: nat)
    ensures r <= n
    ensures 0 <= b <= n ==> r == b
    ensures -(n as int) <= b < 0 ==> r == n + b
  {
    if b < 0 then (if n + b < 0 then 0 else n + b)
    else if b > n then n
    else b
  }

  /** Python's `s[start:stop]` (also `iloc`), negative bounds included. */
  function PySlice<T>(s: seq<T>, start: int, stop: int): seq<T> {
    var a, b := SliceBound(start, |s|), SliceBound(stop, |s|);
    if a < b then s[a..b] else []
  }

  /** `district_df.iloc[:-cut_idx]` for window `k`, where `cut_idx = 12 * k`. */
  function TrainSlice(h: seq<Record>, k: nat): seq<Record> {
    PySlice(h, 0, -(WindowLength * k))
  }

  /** The test rows of window `k`: `iloc[-12:]` for the last window and
      `iloc[-cut_idx:-(cut_idx - 12)]` for the others. */
  function TestSlice(h: seq<Record>, k: nat): seq<Record> {
    if k == 1 then PySlice(h, -WindowLength, |h|)
    else PySlice(h, -(WindowLength * k), -(WindowLength * k - WindowLength))
  }

  /** Window `k` tests the twelve rows starting `12 * k` rows before the end, and
      trains on every row before them. */
  lemma WindowSlices(h: seq<Record>, k: nat)
    requires 1 <= k && WindowLength * k <= |h|
    ensures TrainSlice(h, k) == h[..|h| - WindowLength * k]
    ensures TestSlice(h, k) == h[|h| - WindowLength * k..|h| - WindowLength * k + WindowLength]
    ensures |TestSlice(h, k)| == WindowLength
    ensures TrainSlice(h, k) + TestSlice(h, k) == h[..|h| - WindowLength * k + WindowLength]
  {
    var start := |h| - WindowLength * k;
    if start == 0 {
      assert TrainSlice(h, k) == [];
    }
    assert h[..start] + h[start..start + WindowLength] == h[..start + WindowLength];
  }

  /** Every window the depth rule asks for fits in the history: it tests twelve
      rows and trains on at least 25. */
  lemma ValidatedWindows(h: seq<Record>, k: nat)
    requires 1 <= k <= CvDepth(|h|)
    ensures |TestSlice(h, k)| == WindowLength
    ensures |TrainSlice(h, k)| >= 25
  {
    WindowSlices(h, k);
  }

  /** The general formula with `k = 1` would be `iloc[-12:0]`, which selects
      nothing; the last window's own slice `iloc[-12:]` is the last twelve rows. */
  lemma LastWindowSlice(h: seq<Record>)
    requires |h| >= WindowLength
    ensures PySlice(h, -WindowLength, -(WindowLength * 1 - WindowLength)) == []
    ensures TestSlice(h, 1) == h[|h| - WindowLength..]
  {
  }

  /** The test rows of windows `k`, `k - 1`, ..., `1`, in the order they are visited. */
  function TestRows(h: seq<Record>, k: nat): seq<Record> {
    if k == 0 then [] else TestSlice(h, k) + TestRows(h, k - 1)
  }

  /** Visited from `k = d` down to `1`, the test windows follow one another without
      gap or overlap, in chronological order, and together are exactly the last
      `12 * d` rows. */
  lemma {:induction false} WindowsCoverTail(h: seq<Record>, d: nat)
    requires WindowLength * d <= |h|
    ensures TestRows(h, d) == h[|h| - WindowLength * d..]
  {
    if d > 0 {
      WindowsCoverTail(h, d - 1);
      WindowSlices(h, d);
      var start := |h| - WindowLength * d;
      assert |h| - WindowLength * (d - 1) == start + WindowLength;
      calc {
        TestRows(h, d);
        TestSlice(h, d) + TestRows(h, d - 1);
        h[start..start + WindowLength] + h[start + WindowLength..];
        h[start..];
      }
    }
  }

  // ---------------------------------------------------------------------------
  // Scoring one window
  // ---------------------------------------------------------------------------

  function Abs(x: real): real {
    if x < 0.0 then -x else x
  }

  function Max(a: real, b: real): real {
    if a < b then b else a
  }

  function Dates(rows: seq<Record>): seq<Timestamp> {
    seq(|rows|, i requires 0 <= i < |rows| => rows[i].date)
  }

  function Prices(rows: seq<Record>): seq<real> {
    seq(|rows|, i requires 0 <= i < |rows| => rows[i].price)
  }

  /** The sum of the relative errors `|predicted - actual| / max(|actual|, eps)`. */
  function RelativeErrorSum(actual: seq<real>, predicted: seq<real>): (r: real)
    requires |actual| == |predicted|
    ensures r >= 0.0
    ensures actual == predicted ==> r == 0.0
  {
    if actual == [] then 0.0
    else
      Abs(predicted[0] - actual[0]) / Max(Abs(actual[0]), Epsilon)
      + RelativeErrorSum(actual[1..], predicted[1..])
  }

  /** sklearn's `mean_absolute_percentage_error`, as a fraction: never negative,
      and zero for a perfect prediction. */
  function Mape(actual: seq<real>, predicted: seq<real>): (r: real)
    requires |actual| == |predicted| > 0
    ensures r >= 0.0
    ensures actual == predicted ==> r == 0.0
  {
    RelativeErrorSum(actual, predicted) / (|actual| as real)
  }

  /** One `try` block of the loop: fit `kind` on `train`, predict the test dates and
      score the prediction as MAPE times 100. Anything that raises gives the
      penalty instead: a failed fit or prediction, and a prediction whose length
      does not match the test rows (sklearn refuses it), or no test rows at all. */
  function ScoreWindow(kind: ModelKind, train: seq<Record>, test: seq<Record>, models: Models): (e: real)
    ensures e >= 0.0
    ensures models.fitPredict(kind, train, Dates(test)).None? ==> e == PenaltyError
    ensures models.fitPredict(kind, train, Dates(test)) == Some(Prices(test)) && test != [] ==> e == 0.0
  {
    match models.fitPredict(kind, train, Dates(test))
    case None => PenaltyError
    case Some(predicted) =>
      if |predicted| != |test| || test == [] then PenaltyError
      else Mape(Prices(test), predicted) * 100.0
  }

  /** The score of `kind` on window `k` of `h`. */
  function WindowScore(kind: ModelKind, h: seq<Record>, k: nat, models: Models): real {
    ScoreWindow(kind, TrainSlice(h, k), TestSlice(h, k), models)
  }

  /** `score(k), score(k - 1), ..., score(1)`: what a loop appending one score
      per window, from window `k` down to window 1, accumulates. */
  function Scores(score: nat -> real, k: nat): (r: seq<real>)
    ensures |r| == k
  {
    if k == 0 then [] else [score(k)] + Scores(score, k - 1)
  }

  /** Entry `j` of the accumulated scores is the score of window `k - j`. */
  lemma {:induction false} ScoresAt(score: nat -> real, k: nat, j: nat)
    requires j < k
    ensures Scores(score, k)[j] == score(k - j)
  {
    if j > 0 {
      ScoresAt(score, k - 1, j - 1);
    }
  }

  /** One loop step: appending the score of window `k` to what was accumulated
      leaves windows `k - 1` down to 1 to go. */
  lemma ScoresStep(done: seq<real>, score: nat -> real, k: nat)
    requires k > 0
    ensures done + Scores(score, k) == (done + [score(k)]) + Scores(score, k - 1)
  {
    assert Scores(score, k) == [score(k)] + Scores(score, k - 1);
  }

  /** The loop step of `CrossValidate` for `kind`: the score appended for window
      `k` is the one its train and test slices give. */
  lemma WindowStep(done: seq<real>, kind: ModelKind, h: seq<Record>, k: nat, models: Models)
    requires k > 0
    ensures done + Scores(WindowScorer(kind, h, models), k)
            == (done + [ScoreWindow(kind, TrainSlice(h, k), TestSlice(h, k), models)])
               + Scores(WindowScorer(kind, h, models), k - 1)
  {
    ScoresStep(done, WindowScorer(kind, h, models), k);
  }

  /** Window `k`'s score for `kind`, as a function of `k`. */
  function WindowScorer(kind: ModelKind, h: seq<Record>, models: Models): nat -> real {
    (k: nat) => WindowScore(kind, h, k, models)
  }

  /** The scores of `kind` on windows `k`, `k - 1`, ..., `1`, in the order the
      loop appends them. */
  function WindowErrors(kind: ModelKind, h: seq<Record>, k: nat, models: Models): (r: seq<real>)
    ensures |r| == k
  {
    Scores(WindowScorer(kind, h, models), k)
  }

  /** One score per window: entry `j` scores window `k - j` on its own train and test
      slices, so a failing window never displaces or aborts another. */
  lemma WindowErrorsAt(kind: ModelKind, h: seq<Record>, k: nat, models: Models, j: nat)
    requires j < k
    ensures WindowErrors(kind, h, k, models)[j] == WindowScore(kind, h, k - j, models)
  {
    calc {
      WindowErrors(kind, h, k, models)[j];
      Scores(WindowScorer(kind, h, models), k)[j];
      { ScoresAt(WindowScorer(kind, h, models), k, j); }
      WindowScorer(kind, h, models)(k - j);
    }
  }

  // ---------------------------------------------------------------------------
  // Averaging
  // ---------------------------------------------------------------------------

  function Sum(xs: seq<real>): real {
    if xs == [] then 0.0 else xs[0] + Sum(xs[1..])
  }

  /** `np.mean`. */
  function Mean(xs: seq<real>): real
    requires |xs| > 0
  {
    Sum(xs) / (|xs| as real)
  }

  lemma {:induction false} SumAtLeast(xs: seq<real>, lo: real)
    requires forall i :: 0 <= i < |xs| ==> lo <= xs[i]
    ensures (|xs| as real) * lo <= Sum(xs)
  {
    if xs != [] {
      SumAtLeast(xs[1..], lo);
      assert (|xs| as real) * lo == lo + (|xs[1..]| as real) * lo;
    }
  }

  lemma {:induction false} SumAtMost(xs: seq<real>, hi: real)
    requires forall i :: 0 <= i < |xs| ==> xs[i] <= hi
    ensures Sum(xs) <= (|xs| as real) * hi
  {
    if xs != [] {
      SumAtMost(xs[1..], hi);
      assert (|xs| as real) * hi == hi + (|xs[1..]| as real) * hi;
    }
  }

  /** A mean is at least any lower bound of its entries. */
  lemma MeanAtLeast(xs: seq<real>, lo: real)
    requires |xs| > 0
    requires forall i :: 0 <= i < |xs| ==> lo <= xs[i]
    ensures lo <= Mean(xs)
  {
    SumAtLeast(xs, lo);
    var n := |xs| as real;
    assert n * lo / n == lo;
  }

  /** A mean is at most any upper bound of its entries. */
  lemma MeanAtMost(xs: seq<real>, hi: real)
    requires |xs| > 0
    requires forall i :: 0 <= i < |xs| ==> xs[i] <= hi
    ensures Mean(xs) <= hi
  {
    SumAtMost(xs, hi);
    var n := |xs| as real;
    assert n * hi / n == hi;
  }

  /** A model's final error on a history: the mean of its window scores, or the
      sentinel when there are no windows. It is never negative. */
  function AverageError(kind: ModelKind, h: seq<Record>, models: Models): (e: real)
    ensures e >= 0.0
    ensures CvDepth(|h|) == 0 ==> e == SentinelError
  {
    var depth := CvDepth(|h|);
    if depth == 0 then SentinelError
    else
      var errors := WindowErrors(kind, h, depth, models);
      assert forall i :: 0 <= i < |errors| ==> 0.0 <= errors[i] by {
        forall i | 0 <= i < |errors| ensures 0.0 <= errors[i] {
          WindowErrorsAt(kind, h, depth, models, i);
          assert errors[i] == ScoreWindow(kind, TrainSlice(h, depth - i), TestSlice(h, depth - i), models);
        }
      }
      MeanAtLeast(errors, 0.0);
      Mean(errors)
  }

  /** With at least one window, a model's final error is the mean of the scores
      a loop accumulates down to window 1. */
  lemma AverageOfWindows(errors: seq<real>, kind: ModelKind, h: seq<Record>, models: Models)
    requires CvDepth(|h|) > 0
    requires errors + Scores(WindowScorer(kind, h, models), 0) == Scores(WindowScorer(kind, h, models), CvDepth(|h|))
    ensures Mean(errors) == AverageError(kind, h, models)
  {
    assert errors + Scores(WindowScorer(kind, h, models), 0) == errors;
  }

  /** When every window of a validated history fails for `kind`, its error is
      exactly the penalty. */
  lemma AllWindowsFailed(kind: ModelKind, h: seq<Record>, models: Models)
    requires CvDepth(|h|) > 0
    requires forall k :: 1 <= k <= CvDepth(|h|) ==>
               models.fitPredict(kind, TrainSlice(h, k), Dates(TestSlice(h, k))).None?
    ensures AverageError(kind, h, models) == PenaltyError
  {
    var depth := CvDepth(|h|);
    var errors := WindowErrors(kind, h, depth, models);
    forall i | 0 <= i < |errors| ensures PenaltyError <= errors[i] <= PenaltyError {
      WindowErrorsAt(kind, h, depth, models, i);
      var k := depth - i;
      assert models.fitPredict(kind, TrainSlice(h, k), Dates(TestSlice(h, k))).None?;
    }
    MeanAtLeast(errors, PenaltyError);
    MeanAtMost(errors, PenaltyError);
  }

  /** The validation loop. Its scores are appended window by window, from the
      oldest window (`k = cv_years`) to the most recent (`k = 1`), and averaged. */
  method CrossValidate(history: seq<Record>, models: Models) returns (errP: real, errL: real, errRF: real)
    ensures errP == AverageError(Prophet, history, models)
    ensures errL == AverageError(Linear, history, models)
    ensures errRF == AverageError(RandomForest, history, models)
  {
    var cvYears := CvDepth(|history|);
    if cvYears > 0 {
      var errorsP: seq<real> := [];
      var errorsL: seq<real> := [];
      var errorsRF: seq<real> := [];
      ghost var scorerP := WindowScorer(Prophet, history, models);
      ghost var scorerL := WindowScorer(Linear, history, models);
      ghost var scorerRF := WindowScorer(RandomForest, history, models);
      var k := cvYears;
      while k > 0
        invariant 0 <= k <= cvYears
        invariant errorsP + Scores(scorerP, k) == Scores(scorerP, cvYears)
        invariant errorsL + Scores(scorerL, k) == Scores(scorerL, cvYears)
        invariant errorsRF + Scores(scorerRF, k) == Scores(scorerRF, cvYears)
      {
        var train := TrainSlice(history, k);
        var test := TestSlice(history, k);
        var scoreP := ScoreWindow(Prophet, train, test, models);
        var scoreL := ScoreWindow(Linear, train, test, models);
        var scoreRF := ScoreWindow(RandomForest, train, test, models);
        WindowStep(errorsP, Prophet, history, k, models);
        WindowStep(errorsL, Linear, history, k, models);
        WindowStep(errorsRF, RandomForest, history, k, models);
        errorsP := errorsP + [scoreP];
        errorsL := errorsL + [scoreL];
        errorsRF := errorsRF + [scoreRF];
        k := k - 1;
      }
      AverageOfWindows(errorsP, Prophet, history, models);
      AverageOfWindows(errorsL, Linear, history, models);
      AverageOfWindows(errorsRF, RandomForest, history, models);
      errP, errL, errRF := Mean(errorsP), Mean(errorsL), Mean(errorsRF);
    } else {
      errP, errL, errRF := SentinelError, SentinelError, SentinelError;
    }
  }
}
