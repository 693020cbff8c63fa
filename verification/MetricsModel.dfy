/** src/metrics/model.ts: the metric a caller submits and the record sent to the API. */
module MetricsModel {
  import opened Wrappers
  import opened JsStrings

  datatype MetricPoint = MetricPoint(timestampMs: int, value: real)

  /** One `[unixSeconds, [value]]` pair. */
  datatype APIPoint = APIPoint(unixSeconds: int, value: real)

  datatype APIMetric = APIMetric(
    metric: JsString, tags: seq<JsString>, metricType: JsString, points: seq<APIPoint>)

  datatype MetricKey = MetricKey(
    host: Option<JsString>, metricType: JsString, name: JsString, tags: seq<JsString>)

  function DistributionType(): JsString { Units("distribution") }

  /** A point keeps its value; its second is the one its millisecond lies in, also before
      1970. */
  function ToAPIPoint(point: MetricPoint): (p: APIPoint)
    ensures p.value == point.value && p.unixSeconds * 1000 <= point.timestampMs < (p.unixSeconds + 1) * 1000
  {
    APIPoint(point.timestampMs / 1000, point.value)
  }

  function ToAPIPoints(points: seq<MetricPoint>): (r: seq<APIPoint>)
    ensures |r| == |points|
    ensures forall i :: 0 <= i < |points| ==> r[i] == ToAPIPoint(points[i])
  {
    seq(|points|, i requires 0 <= i < |points| => ToAPIPoint(points[i]))
  }

  datatype Distribution = Distribution(
    name: JsString, points: seq<MetricPoint>, tags: seq<JsString>, host: Option<JsString>)
  {
    function Key(): MetricKey {
      MetricKey(host, DistributionType(), name, tags)
    }

    function ToAPIMetrics(): seq<APIMetric> {
      [APIMetric(name, tags, DistributionType(), ToAPIPoints(points))]
    }

    /** Keeps everything of the receiver and appends the other metric's points. */
    function Union(other: Distribution): Distribution {
      this.(points := points + other.points)
    }
  }
}
