/** `predict_district_prices`: for every district of the cleaned table, validate the
    three model families (module Backtest), refit them on the whole history, pick
    the model with the smallest error, compute Prophet's expected change from the
    current price, and collect one report row and one forecast bundle per district.
    The report rows are finally sorted by expected change, largest first. */
module Predictor {

  import opened Wrappers
  import opened Seqs
  import opened Sorting
  import opened DataLoader
  import opened Backtest

  // ---------------------------------------------------------------------------
  // Expected change
  // ---------------------------------------------------------------------------

  /** A float64 percentage as numpy computes it: dividing by a current price of
      zero gives an infinity of the sign of the numerator, or NaN for `0 / 0`. */
  datatype Change = Finite(pct: real) | Infinite(positive: bool) | NotANumber

  /** `(future - current) / current * 100`. A finite change moves `current` to
      `future`; its sign is the direction of the move when the current price is
      positive. */
  function ChangePct(current: real, future: real): (c: Change)
    ensures current != 0.0 ==> c.Finite? && current + current * c.pct / 100.0 == future
    ensures current > 0.0 && c.Finite? ==> (c.pct > 0.0 <==> future > current)
    ensures current > 0.0 && c.Finite? ==> (c.pct == 0.0 <==> future == current)
    ensures current == 0.0 ==> !c.Finite? && (c.NotANumber? <==> future == 0.0)
    ensures c.Infinite? ==> (c.positive <==> future > current)
  {
    if current != 0.0 then
      var pct := (future - current) / current * 100.0;
      assert current * pct / 100.0 == future - current;
      Finite(pct)
    else if future == 0.0 then NotANumber
    else Infinite(future > 0.0)
  }

  /** Where a change falls in a descending `sort_values`: `+inf` first, then finite
      values, then `-inf`, and NaN last. */
  function Rank(c: Change): nat {
    match c
    case Infinite(positive) => if positive then 3 else 1
    case Finite(_) => 2
    case NotANumber => 0
  }

  /** `a` may precede `b` in the descending order of changes. */
  predicate ChangeAtLeast(a: Change, b: Change) {
    if Rank(a) != Rank(b) then Rank(a) > Rank(b)
    else if a.Finite? then a.pct >= b.pct
    else true
  }

  /** A finite change precedes a smaller one and never follows it; NaN precedes
      only NaN. */
  lemma ChangeAtLeastMeaning(a: Change, b: Change)
    ensures a.Finite? && b.Finite? ==> (ChangeAtLeast(a, b) <==> a.pct >= b.pct)
    ensures a.NotANumber? ==> (ChangeAtLeast(a, b) <==> b.NotANumber?)
    ensures a == Infinite(true) ==> ChangeAtLeast(a, b)
    ensures b.NotANumber? ==> ChangeAtLeast(a, b)
  {
  }

  lemma ChangeAtLeastTotalPreorder()
    ensures TotalPreorder(ChangeAtLeast)
  {
  }

  // ---------------------------------------------------------------------------
  // Best model
  // ---------------------------------------------------------------------------

  /** Python's `min(a, b, c)`: the first of the smallest arguments. */
  function Min3(a: real, b: real, c: real): (m: real)
    ensures m <= a && m <= b && m <= c
    ensures m == a || m == b || m == c
  {
    var ab := if b < a then b else a;
    if c < ab then c else ab
  }

  function ErrorFor(kind: ModelKind, errP: real, errL: real, errRF: real): real {
    match kind
    case Prophet => errP
    case Linear => errL
    case RandomForest => errRF
  }

  /** The model with the smallest error; a tie goes to Prophet, then Linear. */
  function BestModel(errP: real, errL: real, errRF: real): (m: ModelKind)
    ensures ErrorFor(m, errP, errL, errRF) == Min3(errP, errL, errRF)
    ensures m == Prophet <==> errP <= errL && errP <= errRF
    ensures m == Linear <==> errL < errP && errL <= errRF
    ensures m == RandomForest <==> errRF < errP && errRF < errL
  {
    var best := Min3(errP, errL, errRF);
    if best == errP then Prophet
    else if best == errL then Linear
    else RandomForest
  }

  // ---------------------------------------------------------------------------
  // Final refit
  // ---------------------------------------------------------------------------

  /** One row of a forecast frame: a date `ds` and its prediction `yhat`. */
  datatype Point = Point(date: Timestamp, value: real)

  /** Fit `kind` on the whole history and predict at `dates`. A prediction whose
      length differs from `dates` cannot be framed with them and counts as a
      failure. */
  function Projection(kind: ModelKind, history: seq<Record>, dates: seq<Timestamp>, models: Models): Option<seq<Point>> {
    match models.fitPredict(kind, history, dates)
    case None => None
    case Some(values) =>
      if |values| != |dates| then None
      else Some(seq(|dates|, i requires 0 <= i < |dates| => Point(dates[i], values[i])))
  }

  /** A projection pairs every requested date, in order, with the prediction made
      for it, and exists exactly when the model predicts one value per date. */
  lemma ProjectionFacts(kind: ModelKind, history: seq<Record>, dates: seq<Timestamp>, models: Models)
    ensures var r := Projection(kind, history, dates, models);
            var fit := models.fitPredict(kind, history, dates);
            && (r.Some? <==> fit.Some? && |fit.value| == |dates|)
            && (r.Some? ==> |r.value| == |dates|
                            && forall i :: 0 <= i < |dates| ==> r.value[i] == Point(dates[i], fit.value[i]))
  {
  }

  /** The three final forecasts, all on Prophet's future frame. */
  datatype Forecast = Forecast(prophet: seq<Point>, linear: seq<Point>, forest: seq<Point>)

  /** The final fits on the whole history, each predicting at the dates of
      Prophet's future frame. */
  function Refit(history: seq<Record>, months: int, models: Models): Option<Forecast> {
    var dates := models.futureDates(history, months);
    match Projection(Prophet, history, dates, models)
    case None => None
    case Some(prophet) =>
      match Projection(Linear, history, dates, models)
      case None => None
      case Some(linear) =>
        match Projection(RandomForest, history, dates, models)
        case None => None
        case Some(forest) => Some(Forecast(prophet, linear, forest))
  }

  /** The refit fails as soon as one of the three fits fails; otherwise the three
      forecasts are aligned on the same dates, those of the future frame. */
  lemma RefitFacts(history: seq<Record>, months: int, models: Models)
    ensures var dates := models.futureDates(history, months);
            Refit(history, months, models).Some? <==>
              && Projection(Prophet, history, dates, models).Some?
              && Projection(Linear, history, dates, models).Some?
              && Projection(RandomForest, history, dates, models).Some?
    ensures var dates := models.futureDates(history, months);
            var r := Refit(history, months, models);
            r.Some? ==>
              && |r.value.prophet| == |dates|
              && |r.value.linear| == |dates|
              && |r.value.forest| == |dates|
              && forall i :: 0 <= i < |dates| ==>
                   && r.value.prophet[i].date == dates[i]
                   && r.value.linear[i].date == dates[i]
                   && r.value.forest[i].date == dates[i]
  {
    var dates := models.futureDates(history, months);
    ProjectionFacts(Prophet, history, dates, models);
    ProjectionFacts(Linear, history, dates, models);
    ProjectionFacts(RandomForest, history, dates, models);
  }

  // ---------------------------------------------------------------------------
  // One district
  // ---------------------------------------------------------------------------

  /** A row of the result table; the three errors are the validation averages. */
  datatype Report = Report(
    district: string,
    currentPrice: real,
    change: Change,
    bestModel: ModelKind,
    prophetError: real,
    linearError: real,
    forestError: real)

  /** `forecasts[district]`: the district's history, the three forecasts and the
      errors by model name. */
  datatype Bundle = Bundle(
    history: seq<Record>,
    prophet: seq<Point>,
    linear: seq<Point>,
    forest: seq<Point>,
    errors: map<ModelKind, real>)

  datatype DistrictResult = DistrictResult(report: Report, bundle: Bundle)

  /** The `errors` dict of a bundle: one entry per model family. */
  function ErrorMap(errP: real, errL: real, errRF: real): map<ModelKind, real> {
    map[Prophet := errP, Linear := errL, RandomForest := errRF]
  }

  /** Step 2 of one district, from the refit to the stored results. */
  function Finish(district: string, history: seq<Record>, errP: real, errL: real, errRF: real,
                  months: int, models: Models): Option<DistrictResult>
  {
    match Refit(history, months, models)
    case None => None
    case Some(fc) =>
      if history == [] || fc.prophet == [] then None
      else
        var current := history[|history| - 1].price;
        var future := fc.prophet[|fc.prophet| - 1].value;
        var report := Report(district, current, ChangePct(current, future), BestModel(errP, errL, errRF),
                             errP, errL, errRF);
        Some(DistrictResult(report, Bundle(history, fc.prophet, fc.linear, fc.forest, ErrorMap(errP, errL, errRF))))
  }

  /** Step 2 fails (the exception propagates) when a refit fails, and when
      `iloc[-1]` finds no row: an empty history or an empty Prophet forecast.
      Otherwise the current price is the last row's, the change runs from it to
      Prophet's last prediction, the best model has the smallest error, the row
      and the bundle carry the same three errors, and the bundle holds the
      history and the refit's forecasts. */
  lemma FinishFacts(district: string, history: seq<Record>, errP: real, errL: real, errRF: real,
                    months: int, models: Models)
    ensures var r := Finish(district, history, errP, errL, errRF, months, models);
            var fc := Refit(history, months, models);
            r.None? <==> fc.None? || history == [] || fc.value.prophet == []
    ensures var r := Finish(district, history, errP, errL, errRF, months, models);
            r.Some? ==>
              var rep := r.value.report;
              var b := r.value.bundle;
              && history != [] && b.prophet != []
              && rep.district == district
              && rep.currentPrice == history[|history| - 1].price
              && rep.change == ChangePct(rep.currentPrice, b.prophet[|b.prophet| - 1].value)
              && ErrorFor(rep.bestModel, errP, errL, errRF) == Min3(errP, errL, errRF)
              && rep.prophetError == errP && rep.linearError == errL && rep.forestError == errRF
              && (forall kind :: kind in b.errors && b.errors[kind] == ErrorFor(kind, errP, errL, errRF))
              && b.history == history
              && Refit(history, months, models) == Some(Forecast(b.prophet, b.linear, b.forest))
  {
    var r := Finish(district, history, errP, errL, errRF, months, models);
    if r.Some? {
      var errors := r.value.bundle.errors;
      forall kind ensures kind in errors && errors[kind] == ErrorFor(kind, errP, errL, errRF) {
        match kind
        case Prophet =>
        case Linear =>
        case RandomForest =>
      }
    }
  }

  /** `df['district'] == district`, as a row predicate. */
  function InDistrict(district: string): Record -> bool {
    (r: Record) => r.district == district
  }

  /** `df[df['district'] == district]`: the district's rows, in table order. */
  function DistrictRows(df: seq<Record>, district: string): (h: seq<Record>)
    ensures forall r :: r in h <==> r in df && r.district == district
  {
    Filter(df, InDistrict(district))
  }

  /** On a table sorted by district then date, as the loader returns it, a
      district's history is in date order, so the "current" price is the one at
      its latest date. */
  lemma HistoryChronological(df: seq<Record>, district: string)
    requires SortedBy(df, RecordLe)
    ensures forall i, j :: 0 <= i < j < |DistrictRows(df, district)| ==>
              DistrictRows(df, district)[i].date.ns <= DistrictRows(df, district)[j].date.ns
    ensures DistrictRows(df, district) != [] ==>
              var h := DistrictRows(df, district);
              forall r :: r in h ==> r.date.ns <= h[|h| - 1].date.ns
  {
    var h := DistrictRows(df, district);
    FilterSorted(df, InDistrict(district), RecordLe);
    forall i, j | 0 <= i < j < |h| ensures h[i].date.ns <= h[j].date.ns {
      assert h[i] in h && h[j] in h;
      assert RecordLe(h[i], h[j]);
    }
    if h != [] {
      forall r | r in h ensures r.date.ns <= h[|h| - 1].date.ns {
        var i :| 0 <= i < |h| && h[i] == r;
        if i < |h| - 1 {
          assert h[i].date.ns <= h[|h| - 1].date.ns;
        }
      }
    }
  }

  /** Steps 1 and 2 for one district of `df`. */
  function Analyze(df: seq<Record>, district: string, months: int, models: Models): Option<DistrictResult> {
    var h := DistrictRows(df, district);
    Finish(district, h, AverageError(Prophet, h, models), AverageError(Linear, h, models),
           AverageError(RandomForest, h, models), months, models)
  }

  /** A district too short for any window gets the sentinel error for every model,
      so its best model is Prophet. */
  lemma ShortHistoryPicksProphet(df: seq<Record>, district: string, months: int, models: Models)
    requires CvDepth(|DistrictRows(df, district)|) == 0
    requires Analyze(df, district, months, models).Some?
    ensures var rep := Analyze(df, district, months, models).value.report;
            && rep.prophetError == SentinelError
            && rep.linearError == SentinelError
            && rep.forestError == SentinelError
            && rep.bestModel == Prophet
  {
  }

  // ---------------------------------------------------------------------------
  // All districts
  // ---------------------------------------------------------------------------

  /** `Analyze` on the rows of `df`, as a function of the district. */
  function Analyzer(df: seq<Record>, months: int, models: Models): string -> Option<DistrictResult> {
    district => Analyze(df, district, months, models)
  }

  /** The accumulated `results` list and `forecasts` dict. */
  datatype Analysis = Analysis(reports: seq<Report>, forecasts: map<string, Bundle>)

  /** The loop over `districts` in order, `analyze` doing the work for one
      district: results are appended and bundles stored one district at a time,
      and the first failing district ends the run. */
  function AnalyzeAll(districts: seq<string>, analyze: string -> Option<DistrictResult>): Option<Analysis>
  {
    if districts == [] then Some(Analysis([], map[]))
    else
      var last := districts[|districts| - 1];
      match AnalyzeAll(districts[..|districts| - 1], analyze)
      case None => None
      case Some(a) =>
        match analyze(last)
        case None => None
        case Some(res) => Some(Analysis(a.reports + [res.report], a.forecasts[last := res.bundle]))
  }

  /** The run fails exactly when some district fails. */
  lemma {:induction false} AnalyzeAllFails(districts: seq<string>, analyze: string -> Option<DistrictResult>)
    ensures AnalyzeAll(districts, analyze).None? <==>
            exists i :: 0 <= i < |districts| && analyze(districts[i]).None?
  {
    if districts != [] {
      var n := |districts| - 1;
      var pre := districts[..n];
      AnalyzeAllFails(pre, analyze);
      if AnalyzeAll(pre, analyze).None? {
        var i :| 0 <= i < |pre| && analyze(pre[i]).None?;
        assert districts[i] == pre[i];
      } else if analyze(districts[n]).Some? {
        forall i | 0 <= i < |districts| ensures analyze(districts[i]).Some? {
          if i < n {
            assert districts[i] == pre[i];
          }
        }
      }
    }
  }

  /** A run whose first districts already failed fails. */
  lemma {:induction false} AnalyzeAllPrefixFails(districts: seq<string>, n: nat, analyze: string -> Option<DistrictResult>)
    requires n <= |districts|
    requires AnalyzeAll(districts[..n], analyze).None?
    ensures AnalyzeAll(districts, analyze).None?
  {
    if n < |districts| {
      var pre := districts[..|districts| - 1];
      assert pre[..n] == districts[..n];
      AnalyzeAllPrefixFails(pre, n, analyze);
    } else {
      assert districts[..n] == districts;
    }
  }

  /** One loop iteration: district `i` either fails, and so does the run up to
      it, or its report is appended and its bundle stored. */
  lemma AnalyzeAllSnoc(districts: seq<string>, i: nat, analyze: string -> Option<DistrictResult>, a: Analysis)
    requires i < |districts|
    requires AnalyzeAll(districts[..i], analyze) == Some(a)
    ensures analyze(districts[i]).None? ==> AnalyzeAll(districts[..i + 1], analyze).None?
    ensures analyze(districts[i]).Some? ==>
              AnalyzeAll(districts[..i + 1], analyze)
              == Some(Analysis(a.reports + [analyze(districts[i]).value.report],
                               a.forecasts[districts[i] := analyze(districts[i]).value.bundle]))
  {
    assert districts[..i + 1][..i] == districts[..i];
  }

  /** A successful run holds one report per district, in district order, and one
      bundle per district, each exactly what `analyze` gives for that district. */
  lemma {:induction false} AnalyzeAllShape(districts: seq<string>, analyze: string -> Option<DistrictResult>)
    requires NoDuplicates(districts)
    requires AnalyzeAll(districts, analyze).Some?
    ensures var a := AnalyzeAll(districts, analyze).value;
            && |a.reports| == |districts|
            && a.forecasts.Keys == Elements(districts)
            && forall i :: 0 <= i < |districts| ==>
                 && districts[i] in a.forecasts
                 && analyze(districts[i])
                 == Some(DistrictResult(a.reports[i], a.forecasts[districts[i]]))
  {
    if districts != [] {
      var n := |districts| - 1;
      var pre := districts[..n];
      var last := districts[n];
      AnalyzeAllShape(pre, analyze);
      var a0 := AnalyzeAll(pre, analyze).value;
      var res := analyze(last).value;
      var a := AnalyzeAll(districts, analyze).value;
      assert a == Analysis(a0.reports + [res.report], a0.forecasts[last := res.bundle]);
      assert districts == pre + [last];
      forall i | 0 <= i < |districts|
        ensures analyze(districts[i]) == Some(DistrictResult(a.reports[i], a.forecasts[districts[i]]))
      {
        if i < n {
          assert districts[i] == pre[i] != last;
          assert a.reports[i] == a0.reports[i];
        }
      }
    }
  }

  /** `df['district']` as a sequence. */
  function DistrictNames(df: seq<Record>): (names: seq<string>)
    ensures |names| == |df|
    ensures forall i :: 0 <= i < |df| ==> names[i] == df[i].district
  {
    seq(|df|, i requires 0 <= i < |df| => df[i].district)
  }

  /** Report rows in the order of `sort_values(by=change, ascending=False)`. */
  predicate ReportBefore(a: Report, b: Report) {
    ChangeAtLeast(a.change, b.change)
  }

  lemma ReportBeforeTotalPreorder()
    ensures TotalPreorder(ReportBefore)
  {
    ChangeAtLeastTotalPreorder();
  }

  /** After the loop: the results sorted by expected change. With no district
      `results` is empty, and sorting the column-less frame it makes by the change
      column raises. */
  function Collate(districts: seq<string>, analyze: string -> Option<DistrictResult>): Option<Analysis> {
    if districts == [] then None
    else
      match AnalyzeAll(districts, analyze)
      case None => None
      case Some(a) => Some(Analysis(SortBy(a.reports, ReportBefore), a.forecasts))
  }

  /** Collating fails exactly when there is no district or some district fails. */
  lemma CollateFails(districts: seq<string>, analyze: string -> Option<DistrictResult>)
    ensures Collate(districts, analyze).None? <==>
            districts == [] || exists i :: 0 <= i < |districts| && analyze(districts[i]).None?
  {
    AnalyzeAllFails(districts, analyze);
  }

  /** A successful collation holds the reports sorted by expected change, largest
      first: a permutation of the rows the loop appended, so every district's
      report is there, once. It holds one bundle per district; each report and its
      bundle are what `analyze` gives for the report's district. */
  lemma CollateFacts(districts: seq<string>, analyze: string -> Option<DistrictResult>)
    requires NoDuplicates(districts)
    requires forall d :: analyze(d).Some? ==> analyze(d).value.report.district == d
    requires Collate(districts, analyze).Some?
    ensures var a := Collate(districts, analyze).value;
            && SortedBy(a.reports, ReportBefore)
            && multiset(a.reports) == multiset(AnalyzeAll(districts, analyze).value.reports)
            && |a.reports| == |districts|
            && (forall i :: 0 <= i < |districts| ==>
                  analyze(districts[i]).Some? && analyze(districts[i]).value.report in a.reports)
            && a.forecasts.Keys == Elements(districts)
            && forall rep :: rep in a.reports ==>
                 && rep.district in a.forecasts
                 && analyze(rep.district) == Some(DistrictResult(rep, a.forecasts[rep.district]))
  {
    var a0 := AnalyzeAll(districts, analyze).value;
    var sorted := SortBy(a0.reports, ReportBefore);
    assert Collate(districts, analyze).value == Analysis(sorted, a0.forecasts);
    AnalyzeAllShape(districts, analyze);
    ReportBeforeTotalPreorder();
    SortBySorted(a0.reports, ReportBefore);
    SortedReportsMatch(districts, analyze, a0, sorted);
  }

  /** Reordering the rows of a run keeps every district's report and the match
      between each report and the bundle stored under its district. */
  lemma SortedReportsMatch(districts: seq<string>, analyze: string -> Option<DistrictResult>, a0: Analysis,
                           sorted: seq<Report>)
    requires forall d :: analyze(d).Some? ==> analyze(d).value.report.district == d
    requires |a0.reports| == |districts|
    requires forall i :: 0 <= i < |districts| ==>
               && districts[i] in a0.forecasts
               && analyze(districts[i]) == Some(DistrictResult(a0.reports[i], a0.forecasts[districts[i]]))
    requires multiset(sorted) == multiset(a0.reports)
    ensures forall i :: 0 <= i < |districts| ==>
              analyze(districts[i]).Some? && analyze(districts[i]).value.report in sorted
    ensures forall rep :: rep in sorted ==>
              && rep.district in a0.forecasts
              && analyze(rep.district) == Some(DistrictResult(rep, a0.forecasts[rep.district]))
  {
    SameElements(a0.reports, sorted);
    forall i | 0 <= i < |districts|
      ensures analyze(districts[i]).Some? && analyze(districts[i]).value.report in sorted
    {
      assert a0.reports[i] in a0.reports;
    }
    forall rep | rep in sorted
      ensures rep.district in a0.forecasts
      ensures analyze(rep.district) == Some(DistrictResult(rep, a0.forecasts[rep.district]))
    {
      var i :| 0 <= i < |a0.reports| && a0.reports[i] == rep;
      assert rep.district == districts[i];
    }
  }

  /** The whole function: every district of `df`, in order of first appearance. */
  function Predict(df: seq<Record>, months: int, models: Models): Option<Analysis> {
    Collate(Distinct(DistrictNames(df)), Analyzer(df, months, models))
  }

  /** The district names occurring in `df`. */
  function TableDistricts(df: seq<Record>): set<string> {
    set r | r in df :: r.district
  }

  /** The districts visited are exactly those of the table. */
  lemma DistrictsOfTable(df: seq<Record>)
    ensures Elements(Distinct(DistrictNames(df))) == TableDistricts(df)
    ensures Distinct(DistrictNames(df)) == [] <==> df == []
  {
    var names := DistrictNames(df);
    var districts := Distinct(names);
    forall d | d in districts ensures d in TableDistricts(df) {
      var k :| 0 <= k < |names| && names[k] == d;
      assert df[k] in df;
    }
    forall d | d in TableDistricts(df) ensures d in districts {
      var r :| r in df && r.district == d;
      var k :| 0 <= k < |df| && df[k] == r;
      assert names[k] == d;
    }
    if df != [] {
      assert df[0].district in names;
    }
  }

  /** Some district of a list fails exactly when some row of a table with the
      same districts belongs to a failing district. */
  lemma SameFailures(districts: seq<string>, df: seq<Record>, analyze: string -> Option<DistrictResult>)
    requires Elements(districts) == TableDistricts(df)
    ensures (exists i :: 0 <= i < |districts| && analyze(districts[i]).None?) <==>
            (exists r :: r in df && analyze(r.district).None?)
  {
    if exists r :: r in df && analyze(r.district).None? {
      var r :| r in df && analyze(r.district).None?;
      assert r.district in TableDistricts(df);
      assert r.district in Elements(districts);
      var i :| 0 <= i < |districts| && districts[i] == r.district;
    }
    if exists i :: 0 <= i < |districts| && analyze(districts[i]).None? {
      var i :| 0 <= i < |districts| && analyze(districts[i]).None?;
      assert districts[i] in Elements(districts);
      assert districts[i] in TableDistricts(df);
      var r :| r in df && r.district == districts[i];
    }
  }

  /** The run fails exactly when the table is empty or some district of it fails. */
  lemma PredictFails(df: seq<Record>, months: int, models: Models)
    ensures Predict(df, months, models).None? <==>
            df == [] || exists r :: r in df && Analyzer(df, months, models)(r.district).None?
  {
    var districts := Distinct(DistrictNames(df));
    CollateFails(districts, Analyzer(df, months, models));
    DistrictsOfTable(df);
    SameFailures(districts, df, Analyzer(df, months, models));
  }

  /** A successful run: the reports sorted by expected change, largest first, with
      as many reports as districts and every district of `df` reported, as a
      permutation of the rows the loop appended; one bundle per district; and
      each report and bundle is what validating and refitting that district's own
      rows gives. */
  lemma PredictFacts(df: seq<Record>, months: int, models: Models)
    requires Predict(df, months, models).Some?
    ensures var a := Predict(df, months, models).value;
            && SortedBy(a.reports, ReportBefore)
            && |a.reports| == |Distinct(DistrictNames(df))|
            && (forall d :: d in TableDistricts(df) ==>
                  Analyzer(df, months, models)(d).Some?
                  && Analyzer(df, months, models)(d).value.report in a.reports)
            && multiset(a.reports)
               == multiset(AnalyzeAll(Distinct(DistrictNames(df)), Analyzer(df, months, models)).value.reports)
            && a.forecasts.Keys == TableDistricts(df)
            && forall rep :: rep in a.reports ==>
                 && rep.district in a.forecasts
                 && Analyzer(df, months, models)(rep.district)
                    == Some(DistrictResult(rep, a.forecasts[rep.district]))
  {
    var analyze := Analyzer(df, months, models);
    forall d | analyze(d).Some? ensures analyze(d).value.report.district == d {
      var h := DistrictRows(df, d);
      FinishFacts(d, h, AverageError(Prophet, h, models), AverageError(Linear, h, models),
                  AverageError(RandomForest, h, models), months, models);
    }
    var districts := Distinct(DistrictNames(df));
    CollateFacts(districts, analyze);
    DistrictsOfTable(df);
    var a := Predict(df, months, models).value;
    forall d | d in TableDistricts(df)
      ensures analyze(d).Some? && analyze(d).value.report in a.reports
    {
      assert d in Elements(districts);
      var i :| 0 <= i < |districts| && districts[i] == d;
    }
  }

  /** The loop of `predict_district_prices`, with the sort after it. */
  method PredictDistrictPrices(df: seq<Record>, months: int, models: Models) returns (out: Option<Analysis>)
    ensures out == Predict(df, months, models)
  {
    var districts := Distinct(DistrictNames(df));
    var results: seq<Report> := [];
    var forecasts: map<string, Bundle> := map[];
    var i := 0;
    while i < |districts|
      invariant 0 <= i <= |districts|
      invariant AnalyzeAll(districts[..i], Analyzer(df, months, models)) == Some(Analysis(results, forecasts))
    {
      var district := districts[i];
      var districtDf := DistrictRows(df, district);
      var errP, errL, errRF := CrossValidate(districtDf, models);
      var finished := Finish(district, districtDf, errP, errL, errRF, months, models);
      assert finished == Analyzer(df, months, models)(district);
      AnalyzeAllSnoc(districts, i, Analyzer(df, months, models), Analysis(results, forecasts));
      if finished.None? {
        AnalyzeAllPrefixFails(districts, i + 1, Analyzer(df, months, models));
        return None;
      }
      results := results + [finished.value.report];
      forecasts := forecasts[district := finished.value.bundle];
      i := i + 1;
    }
    assert districts[..i] == districts;
    if |districts| == 0 {
      return None;
    }
    out := Some(Analysis(SortBy(results, ReportBefore), forecasts));
  }
}
