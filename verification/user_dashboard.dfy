/** The user dashboard's chart preparation: the device breakdown, the daily
    trend and the weekly comparison, and the message of a failed load. */
module UserDashboard {
  import opened Js
  import opened Ui
  import opened Charts

  /** The device breakdown pie: one slice per device, named by its device
      name and sized by its consumption; an absent breakdown gives no slices. */
  function DeviceData(deviceBreakdown: Option<seq<Record>>): (r: seq<NamedValue>)
    ensures |r| == |OrEmpty(deviceBreakdown)|
    ensures forall i :: 0 <= i < |r| ==>
      r[i] == NamedValue(Get(OrEmpty(deviceBreakdown)[i], "deviceName"), Get(OrEmpty(deviceBreakdown)[i], "consumption"))
  {
    Slices(OrEmpty(deviceBreakdown), "deviceName", "consumption")
  }

  datatype TrendChart = TrendChart(categories: seq<JsVal>, series: seq<Series>)

  /** The daily trend line: the days' dates as categories and one "Daily
      Consumption" series of their consumptions. */
  function TrendData(dailyData: Option<seq<Record>>): (r: TrendChart)
    ensures |r.series| == 1 && r.series[0].name == "Daily Consumption"
    ensures r.categories == Pluck(OrEmpty(dailyData), "date")
    ensures r.series[0].data == Pluck(OrEmpty(dailyData), "consumption")
  {
    var days := OrEmpty(dailyData);
    TrendChart(Pluck(days, "date"), [Series("Daily Consumption", Pluck(days, "consumption"))])
  }

  /** The trend has one point per day: dates and consumptions line up. */
  lemma TrendLinesUp(dailyData: seq<Record>)
    ensures |TrendData(Some(dailyData)).categories| == |TrendData(Some(dailyData)).series[0].data| == |dailyData|
    ensures forall i :: 0 <= i < |dailyData| ==>
      TrendData(Some(dailyData)).categories[i] == Get(dailyData[i], "date")
      && TrendData(Some(dailyData)).series[0].data[i] == Get(dailyData[i], "consumption")
  {
  }

  datatype Comparison = Comparison(categories: seq<JsVal>, actual: seq<JsVal>, predicted: seq<JsVal>)

  /** The weekly comparison: weeks as categories, the actual consumption per
      week, and the predicted values read from a separate list. */
  function ComparisonData(weeklyData: Option<seq<Record>>, weeklyPredictions: Option<seq<Record>>): (r: Comparison)
    ensures r.categories == Pluck(OrEmpty(weeklyData), "week")
    ensures r.actual == Pluck(OrEmpty(weeklyData), "consumption")
    ensures r.predicted == Pluck(OrEmpty(weeklyPredictions), "prediction")
  {
    var weeks := OrEmpty(weeklyData);
    Comparison(Pluck(weeks, "week"), Pluck(weeks, "consumption"), Pluck(OrEmpty(weeklyPredictions), "prediction"))
  }

  /** Weeks and actual values come from the same list and line up; the
      predicted values come from another list, so their count is independent:
      with one week and no predictions the bars do not pair up. */
  lemma ComparisonLengths(weeklyData: seq<Record>, weeklyPredictions: seq<Record>)
    ensures var c := ComparisonData(Some(weeklyData), Some(weeklyPredictions));
      |c.categories| == |c.actual| == |weeklyData| && |c.predicted| == |weeklyPredictions|
    ensures |ComparisonData(Some([map[]]), None).predicted| != |ComparisonData(Some([map[]]), None).actual|
  {
  }

  /** The notice when loading fails: the server's message, or "Failed to load
      dashboard data". */
  function LoadFailedNotice(serverMessage: JsVal): (n: Notice)
    ensures n.open && n.severity == Error
    ensures Truthy(serverMessage) ==> n.message == serverMessage
    ensures !Truthy(serverMessage) ==> n.message == Str("Failed to load dashboard data")
  {
    Notice(true, OrText(serverMessage, "Failed to load dashboard data"), Error)
  }
}
