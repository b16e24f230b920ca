/**
Flattening of metric families into labelled time series, as both encoders do it.

A double is its bit pattern; how doubles are printed and how counts become doubles are parameters,
since no arithmetic is done on them.
*/
module Metrics {
  import opened Common

  /** An IEEE double, by its 64 bits. */
  datatype Double = Double(bits: nat)

  /** Number conversions: the label text of a double, and `count as f64`. */
  datatype Numbers = Numbers(format: Double -> string, ofCount: nat -> Double)

  datatype Label = Label(name: string, value: string)
  datatype Sample = Sample(value: Double, timestampMs: int)
  datatype TimeSeries = TimeSeries(labels: seq<Label>, samples: seq<Sample>)

  datatype Bucket = Bucket(upperBound: Double, cumulativeCount: nat)
  datatype Histogram = Histogram(sum: Double, count: nat, buckets: seq<Bucket>)
  datatype Quantile = Quantile(quantile: Double, value: Double)
  datatype Summary = Summary(sum: Double, count: nat, quantiles: seq<Quantile>)

  /** Which of the value fields counts is decided by the type of the family. */
  datatype Metric = Metric(
    labels: seq<Label>,
    timestampMs: Option<int>,
    counter: Double, gauge: Double, untyped: Double, histogram: Histogram, summary: Summary)

  datatype MetricType = COUNTER | GAUGE | SUMMARY | UNTYPED | HISTOGRAM | GAUGE_HISTOGRAM

  datatype MetricFamily = MetricFamily(name: string, mtype: MetricType, metrics: seq<Metric>)

  const NAME := "__name__"
  const LE := "le"
  const QUANTILE := "quantile"
  const PLUS_INF := "+Inf"

  function One(labels: seq<Label>, value: Double, ts: int): TimeSeries {
    TimeSeries(labels, [Sample(value, ts)])
  }

  /** `labels_from_metric` / `labelsFromMetric` */
  function Named(name: string, labels: seq<Label>): seq<Label> {
    [Label(NAME, name)] + labels
  }

  function Tagged(name: string, labels: seq<Label>, tag: string, value: string): seq<Label> {
    Named(name, labels) + [Label(tag, value)]
  }

  /** `with_name` / `withName`: rename in place if there is a name label, else put one in front. */
  function WithName(labels: seq<Label>, name: string): seq<Label> {
    var i := NameIndex(labels);
    if i < |labels| then labels[i := Label(NAME, name)] else Named(name, labels)
  }

  /** The position of the first `__name__` label, or the length if there is none. */
  function NameIndex(labels: seq<Label>): (i: nat)
    ensures i <= |labels|
    ensures forall j :: 0 <= j < i ==> labels[j].name != NAME
    ensures i < |labels| ==> labels[i].name == NAME
  {
    if labels == [] || labels[0].name == NAME then 0 else 1 + NameIndex(labels[1..])
  }

  lemma RenameBase(name: string, labels: seq<Label>, other: string)
    ensures WithName(Named(name, labels), other) == Named(other, labels)
  {
  }

  function BucketSeries(num: Numbers, name: string, labels: seq<Label>, bs: seq<Bucket>, ts: int): seq<TimeSeries> {
    if bs == [] then []
    else
      var bound := num.format(bs[0].upperBound);
      [One(Tagged(name + "_bucket", labels, LE, bound), num.ofCount(bs[0].cumulativeCount), ts)] +
      BucketSeries(num, name, labels, bs[1..], ts)
  }

  function InfBucket(num: Numbers, name: string, labels: seq<Label>, h: Histogram, ts: int): TimeSeries {
    One(Tagged(name + "_bucket", labels, LE, PLUS_INF), num.ofCount(h.count), ts)
  }

  function QuantileSeries(num: Numbers, name: string, labels: seq<Label>, qs: seq<Quantile>, ts: int): seq<TimeSeries> {
    if qs == [] then []
    else
      [One(Tagged(name, labels, QUANTILE, num.format(qs[0].quantile)), qs[0].value, ts)] +
      QuantileSeries(num, name, labels, qs[1..], ts)
  }

  function SumAndCount(num: Numbers, name: string, labels: seq<Label>, sum: Double, count: nat, ts: int)
    : seq<TimeSeries>
  {
    [One(Named(name + "_sum", labels), sum, ts), One(Named(name + "_count", labels), num.ofCount(count), ts)]
  }

  function HistogramSeries(num: Numbers, name: string, labels: seq<Label>, h: Histogram, ts: int): seq<TimeSeries> {
    SumAndCount(num, name, labels, h.sum, h.count, ts) + BucketSeries(num, name, labels, h.buckets, ts) +
    [InfBucket(num, name, labels, h, ts)]
  }

  function SummarySeries(num: Numbers, name: string, labels: seq<Label>, s: Summary, ts: int): seq<TimeSeries> {
    SumAndCount(num, name, labels, s.sum, s.count, ts) + QuantileSeries(num, name, labels, s.quantiles, ts)
  }

  /** The series of one metric, all with the same timestamp. */
  function SeriesOf(num: Numbers, name: string, mtype: MetricType, m: Metric, ts: int): seq<TimeSeries> {
    match mtype
    case COUNTER => [One(Named(name, m.labels), m.counter, ts)]
    case GAUGE => [One(Named(name, m.labels), m.gauge, ts)]
    case UNTYPED => [One(Named(name, m.labels), m.untyped, ts)]
    case HISTOGRAM => HistogramSeries(num, name, m.labels, m.histogram, ts)
    case SUMMARY => SummarySeries(num, name, m.labels, m.summary, ts)
    case GAUGE_HISTOGRAM => []
  }

  // ---------------------------------------------------------------- the two encoders

  /** Which encoder; they differ in the types they emit and in what they take for a missing timestamp. */
  datatype Encoder = Rust | Go

  predicate Supported(enc: Encoder, mtype: MetricType) {
    match mtype
    case UNTYPED => enc.Go?
    case GAUGE_HISTOGRAM => false
    case _ => true
  }

  /** A missing timestamp means now; for Rust, where it reads as zero, so does zero. */
  function Timestamp(enc: Encoder, m: Metric, now: int): int {
    if m.timestampMs.Some? && (enc.Go? || m.timestampMs.value != 0) then m.timestampMs.value else now
  }

  function MetricSeries(enc: Encoder, num: Numbers, name: string, mtype: MetricType, m: Metric, now: int)
    : seq<TimeSeries>
  {
    if Supported(enc, mtype) then SeriesOf(num, name, mtype, m, Timestamp(enc, m, now)) else []
  }

  function FamilySeries(enc: Encoder, num: Numbers, name: string, mtype: MetricType, ms: seq<Metric>, now: int)
    : seq<TimeSeries>
  {
    if ms == [] then []
    else MetricSeries(enc, num, name, mtype, ms[0], now) + FamilySeries(enc, num, name, mtype, ms[1..], now)
  }

  /** The flat list of an encoder that meets no error. */
  function Flatten(enc: Encoder, num: Numbers, fs: seq<MetricFamily>, now: int): seq<TimeSeries> {
    if fs == [] then []
    else
      FamilySeries(enc, num, fs[0].name, fs[0].mtype, fs[0].metrics, now) + Flatten(enc, num, fs[1..], now)
  }

  // ---------------------------------------------------------------- errors of the Go encoder

  /** The first metric of a family of unknown type is an error. */
  predicate GoRejects(f: MetricFamily) {
    f.mtype.GAUGE_HISTOGRAM? && f.metrics != []
  }

  /** What the Go encoder returns; `None` among the families is a nil pointer, `None` as result an error. */
  function GoFlatten(num: Numbers, fs: seq<Option<MetricFamily>>, now: int): Option<seq<TimeSeries>> {
    if fs == [] then Some([])
    else if fs[0].None? then GoFlatten(num, fs[1..], now)
    else if GoRejects(fs[0].value) then None
    else
      var f := fs[0].value;
      match GoFlatten(num, fs[1..], now)
      case Some(rest) => Some(FamilySeries(Go, num, f.name, f.mtype, f.metrics, now) + rest)
      case None => None
  }

  /** The families that are not nil pointers. */
  function Present(gs: seq<Option<MetricFamily>>): seq<MetricFamily> {
    if gs == [] then []
    else (if gs[0].Some? then [gs[0].value] else []) + Present(gs[1..])
  }

  /** Go fails exactly if some family is rejected, and otherwise flattens the families present. */
  lemma {:induction false} GoFlattens(num: Numbers, gs: seq<Option<MetricFamily>>, now: int)
    ensures GoFlatten(num, gs, now) ==
      if exists f :: f in Present(gs) && f.mtype.GAUGE_HISTOGRAM? && f.metrics != [] then None
      else Some(Flatten(Go, num, Present(gs), now))
  {
    if gs == [] {
    } else {
      GoFlattens(num, gs[1..], now);
      if gs[0].Some? {
        var f, rest := gs[0].value, Present(gs[1..]);
        assert Present(gs) == [f] + rest && ([f] + rest)[1..] == rest;
        assert forall g :: g in Present(gs) <==> g == f || g in rest;
        assert Flatten(Go, num, Present(gs), now) ==
          FamilySeries(Go, num, f.name, f.mtype, f.metrics, now) + Flatten(Go, num, rest, now);
      } else {
        assert Present(gs) == Present(gs[1..]);
      }
    }
  }
}
