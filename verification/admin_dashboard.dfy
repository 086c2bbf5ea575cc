/** The admin dashboard: the five headline figures, the user-growth chart,
    the category distribution, and the accuracy band of a prediction log. */
module AdminDashboard {
  import opened Js
  import opened Charts

  /** The system analytics response: scalar figures, and the two lists
      (absent when the response leaves them out). */
  datatype Analytics = Analytics(
    figures: Record,
    userGrowth: Option<seq<Record>>,
    categoryDistribution: Option<seq<Record>>)

  const StatKeys: seq<string> := ["totalUsers", "totalDevices", "totalCategories", "totalPredictions", "activeAlerts"]

  /** Each figure is taken from the response when truthy, else 0. */
  function Stats(a: Analytics): (stats: Record)
    ensures stats.Keys == set k | k in StatKeys
    ensures forall k :: k in StatKeys ==>
      (Truthy(Get(a.figures, k)) ==> stats[k] == Get(a.figures, k))
      && (!Truthy(Get(a.figures, k)) ==> stats[k] == Num(0.0))
  {
    map k | k in StatKeys :: Or(Get(a.figures, k), Num(0.0))
  }

  /** A figure never shows as a falsy value other than 0: `undefined`, `null`,
      NaN and "" all become 0. */
  lemma StatsNeverBlank(a: Analytics, k: string)
    requires k in StatKeys
    ensures Truthy(Stats(a)[k]) || Stats(a)[k] == Num(0.0)
  {
  }

  datatype GrowthChart = GrowthChart(categories: seq<JsVal>, series: seq<Series>)

  function UserGrowth(a: Analytics): GrowthChart {
    var growth := OrEmpty(a.userGrowth);
    GrowthChart(Pluck(growth, "month"), [Series("New Users", Pluck(growth, "count"))])
  }

  /** One category per month and one value per month, in the response's
      order; both empty when the response has no growth list. */
  lemma UserGrowthSpec(a: Analytics)
    ensures |UserGrowth(a).series| == 1
    ensures |UserGrowth(a).categories| == |UserGrowth(a).series[0].data|
    ensures a.userGrowth.None? ==> UserGrowth(a).categories == [] && UserGrowth(a).series[0].data == []
    ensures a.userGrowth.Some? ==>
      |UserGrowth(a).categories| == |a.userGrowth.value|
      && forall i :: 0 <= i < |a.userGrowth.value| ==>
        UserGrowth(a).categories[i] == Get(a.userGrowth.value[i], "month")
        && UserGrowth(a).series[0].data[i] == Get(a.userGrowth.value[i], "count")
  {
  }

  /** `categoryName → name`, `count → value`, one slice per entry. */
  function CategoryDistribution(a: Analytics): (r: seq<NamedValue>)
    ensures a.categoryDistribution.None? ==> r == []
    ensures a.categoryDistribution.Some? ==>
      |r| == |a.categoryDistribution.value|
      && forall i :: 0 <= i < |r| ==>
        r[i] == NamedValue(Get(a.categoryDistribution.value[i], "categoryName"), Get(a.categoryDistribution.value[i], "count"))
  {
    Slices(OrEmpty(a.categoryDistribution), "categoryName", "count")
  }

  datatype Band = SuccessBand | WarningBand | ErrorBand

  /** The accuracy chip's colour. `None` is an accuracy that converts to NaN
      (for example an absent one): every comparison with it is false. */
  function AccuracyBand(accuracy: Option<real>): Band {
    if accuracy.Some? && accuracy.value >= 90.0 then SuccessBand
    else if accuracy.Some? && accuracy.value >= 75.0 then WarningBand
    else ErrorBand
  }

  /** The bands split the numbers at 75 and 90: each accuracy falls in exactly
      one, and a higher accuracy never gets a worse band. */
  lemma AccuracyBandSpec(a: real, b: real)
    ensures AccuracyBand(Some(a)) == SuccessBand <==> a >= 90.0
    ensures AccuracyBand(Some(a)) == WarningBand <==> 75.0 <= a < 90.0
    ensures AccuracyBand(Some(a)) == ErrorBand <==> a < 75.0
    ensures AccuracyBand(None) == ErrorBand
    ensures a <= b ==> Rank(AccuracyBand(Some(a))) <= Rank(AccuracyBand(Some(b)))
  {
  }

  function Rank(b: Band): nat {
    match b
    case ErrorBand => 0
    case WarningBand => 1
    case SuccessBand => 2
  }
}
