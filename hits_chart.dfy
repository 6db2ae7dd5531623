/**
 * `NotificationModel::getHitsLineChartData`: which time query is prepared for
 * the "total sent" line and how the caller's filter reaches it. Bucketing,
 * loading and rendering belong to the chart helpers and are not modelled.
 */
module HitsChart {
  import opened Wrappers
  import opened PhpValues

  /** A time-bucketed count query: table, date column, column filters, creator restriction. */
  datatype TimeQuery = TimeQuery(table: string, column: string, filter: map<string, Value>, createdBy: Option<int>)

  /** A line of the chart: its (untranslated) label and the query its data comes from. */
  datatype Dataset = Dataset(labelKey: string, query: TimeQuery)

  /** The chart as set up before rendering. */
  datatype LineChart = LineChart(unit: string, dateFrom: int, dateTo: int, dateFormat: Option<string>, datasets: seq<Dataset>)

  const TotalSentLabel: string := "mautic.notification.show.total.sent"

  /** `!$flag || 'total_and_unique' === $flag`: the flag asks for the "total sent" line. */
  predicate WantsTotalSent(flag: Value)
  {
    Falsy(flag) || flag == Str("total_and_unique")
  }

  /** `limitQueryToCreator`: restrict the stats to notifications created by the current user. */
  function LimitQueryToCreator(q: TimeQuery, userId: int): TimeQuery
  {
    q.(createdBy := Some(userId))
  }

  /**
   * `getHitsLineChartData`. The reserved `flag` entry is taken out of the
   * filter when it is set (non-null); the "total sent" line is added only when
   * the flag is falsy or `total_and_unique`, restricted to the current user
   * `userId` when the caller may not view others' notifications.
   */
  method GetHitsLineChartData(
    unit: string, dateFrom: int, dateTo: int, dateFormat: Option<string>,
    filter: map<string, Value>, canViewOthers: bool, userId: int)
    returns (chart: LineChart)
    ensures chart.unit == unit && chart.dateFrom == dateFrom && chart.dateTo == dateTo && chart.dateFormat == dateFormat
    ensures |chart.datasets| <= 1
    ensures chart.datasets != [] <==> "flag" !in filter || WantsTotalSent(filter["flag"])
    ensures forall d :: d in chart.datasets ==>
              && d.labelKey == TotalSentLabel
              && d.query.table == "push_notification_stats" && d.query.column == "date_sent"
              && d.query.createdBy == (if canViewOthers then None else Some(userId))
    // the flag is stripped when set; a null flag entry is not `isset` and stays
    ensures forall d :: d in chart.datasets ==>
              && ("flag" in d.query.filter <==> "flag" in filter && filter["flag"] == Null)
              && (forall k :: k in d.query.filter ==> k in filter && d.query.filter[k] == filter[k])
              && (forall k :: k in filter && k != "flag" ==> k in d.query.filter)
  {
    var flag := Null;
    var f := filter;
    if "flag" in f && f["flag"] != Null {
      flag := f["flag"];
      f := f - {"flag"};
    }
    var datasets: seq<Dataset> := [];
    if Falsy(flag) || flag == Str("total_and_unique") {
      var q := TimeQuery("push_notification_stats", "date_sent", f, None);
      if !canViewOthers {
        q := LimitQueryToCreator(q, userId);
      }
      datasets := [Dataset(TotalSentLabel, q)];
    }
    chart := LineChart(unit, dateFrom, dateTo, dateFormat, datasets);
  }
}
