/** The predictions page: the forecast chart for the chosen period, the
    period and model toggles, the chart title, and the summary panel's
    figures with their fallbacks. */
module PredictionsView {
  import opened Js
  import opened Charts
  import Seqs
  import UserSlice

  datatype ChartData = ChartData(categories: seq<JsVal>, series: seq<Series>)

  datatype View = View(modelType: string, period: string, chart: ChartData)

  const Initial: View := View("random_forest", "daily", ChartData([], []))

  /** `data[period] || []`: a list that is present is used even when empty. */
  function PeriodData(p: UserSlice.Predictions, period: string): (r: seq<Record>)
    ensures period in p.periods && p.periods[period].Some? ==> r == p.periods[period].value
    ensures !(period in p.periods && p.periods[period].Some?) ==> r == []
  {
    if period in p.periods && p.periods[period].Some? then p.periods[period].value else []
  }

  /** `updateChartData(data, period)` */
  function Chart(p: UserSlice.Predictions, period: string): ChartData {
    var items := PeriodData(p, period);
    ChartData(
      Seqs.Map((item: Record) => Or(Get(item, "date"), Get(item, "label")), items),
      [Series("Predicted Consumption", Pluck(items, "prediction"))])
  }

  /** One category and one predicted value per item of the period, in order;
      the category is the item's date, or its label when the date is falsy. */
  lemma ChartSpec(p: UserSlice.Predictions, period: string)
    ensures var items := PeriodData(p, period);
      && |Chart(p, period).series| == 1
      && |Chart(p, period).categories| == |Chart(p, period).series[0].data| == |items|
      && forall i :: 0 <= i < |items| ==>
        && Chart(p, period).series[0].data[i] == Get(items[i], "prediction")
        && (Truthy(Get(items[i], "date")) ==> Chart(p, period).categories[i] == Get(items[i], "date"))
        && (!Truthy(Get(items[i], "date")) ==> Chart(p, period).categories[i] == Get(items[i], "label"))
  {
  }

  /** `handlePeriodChange`: `null` (the selected button clicked again) is
      ignored; otherwise the period changes and the chart is rebuilt from
      the store's predictions. */
  function PeriodChange(v: View, newPeriod: Option<string>, predictions: UserSlice.Predictions): (w: View)
    ensures newPeriod.None? ==> w == v
    ensures newPeriod.Some? ==>
      w == v.(period := newPeriod.value, chart := Chart(predictions, newPeriod.value))
  {
    if newPeriod.None? then v else v.(period := newPeriod.value, chart := Chart(predictions, newPeriod.value))
  }

  /** `handleModelChange`: `null` is ignored. */
  function ModelChange(v: View, newModel: Option<string>): (w: View)
    ensures newModel.None? ==> w == v
    ensures newModel.Some? ==> w == v.(modelType := newModel.value)
  {
    if newModel.None? then v else v.(modelType := newModel.value)
  }

  /** The chart title: the period with its first letter upper-cased, then
      " Forecast". */
  function Title(period: string): (t: string)
    ensures |t| == |period| + |" Forecast"|
    ensures |period| > 0 ==> t[0] == UpperChar(period[0])
    ensures forall i :: 1 <= i < |period| ==> t[i] == period[i]
    ensures t[|period|..] == " Forecast"
  {
    (if period == "" then "" else [UpperChar(period[0])]) + (if period == "" then "" else period[1..]) + " Forecast"
  }

  /** The titles of the three periods the toggle offers. */
  lemma TitleDaily()
    ensures Title("daily") == "Daily Forecast"
  {
    assert "daily" == ['d'] + "aily";
  }

  lemma TitleWeekly()
    ensures Title("weekly") == "Weekly Forecast"
  {
    assert "weekly" == ['w'] + "eekly";
  }

  lemma TitleMonthly()
    ensures Title("monthly") == "Monthly Forecast"
  {
    assert "monthly" == ['m'] + "onthly";
  }

  /** "increase" exactly when the percentage change is positive; "decrease"
      when it is zero, negative or absent. */
  function Direction(summary: Option<UserSlice.Summary>): (d: string)
    ensures d == "increase" <==>
      summary.Some? && summary.value.percentageChange.Some? && summary.value.percentageChange.value > 0.0
    ensures d == "increase" || d == "decrease"
  {
    if summary.Some? && summary.value.percentageChange.Some? && summary.value.percentageChange.value > 0.0
    then "increase" else "decrease"
  }

  /** `Math.abs(summary?.percentageChange || 0)` */
  function Magnitude(summary: Option<UserSlice.Summary>): (m: real)
    ensures m >= 0.0
    ensures summary.Some? && summary.value.percentageChange.Some? ==>
      m == Abs(summary.value.percentageChange.value)
    ensures !(summary.Some? && summary.value.percentageChange.Some?) ==> m == 0.0
  {
    var pc := if summary.Some? && summary.value.percentageChange.Some? then summary.value.percentageChange.value else 0.0;
    Abs(pc)
  }

  function Abs(x: real): (r: real)
    ensures r >= 0.0 && (r == x || r == -x)
  {
    if x < 0.0 then -x else x
  }

  /** The direction and magnitude together give back the signed change. */
  lemma SummaryRecoversChange(x: real)
    ensures var s := Some(UserSlice.Summary(Undefined, Undefined, Some(x)));
      (if Direction(s) == "increase" then Magnitude(s) else -Magnitude(s)) == x
  {
  }

  /** The panel's figures with their fallbacks: monthly total "0.00",
      confidence "92", mean absolute error "1.2". */
  function MonthlyTotal(summary: Option<UserSlice.Summary>): (v: JsVal)
    ensures Truthy(v) || v == Str("0.00")
    ensures summary.Some? && Truthy(summary.value.monthlyTotal) ==> v == summary.value.monthlyTotal
    ensures !(summary.Some? && Truthy(summary.value.monthlyTotal)) ==> v == Str("0.00")
  {
    OrText(if summary.Some? then summary.value.monthlyTotal else Undefined, "0.00")
  }

  function Confidence(accuracy: Option<Record>): (v: JsVal)
    ensures Truthy(GetOpt(accuracy, "confidence")) ==> v == GetOpt(accuracy, "confidence")
    ensures !Truthy(GetOpt(accuracy, "confidence")) ==> v == Str("92")
  {
    OrText(GetOpt(accuracy, "confidence"), "92")
  }

  function MeanAbsoluteError(accuracy: Option<Record>): (v: JsVal)
    ensures Truthy(GetOpt(accuracy, "mae")) ==> v == GetOpt(accuracy, "mae")
    ensures !Truthy(GetOpt(accuracy, "mae")) ==> v == Str("1.2")
  {
    OrText(GetOpt(accuracy, "mae"), "1.2")
  }
}
