/**
What each encoder emits for one metric, written out: how many series, with which labels, value and
timestamp.
*/
module MetricsEmission {
  import opened Common
  import opened Metrics
  import opened MetricsSeries

  /** The effective timestamp of a metric, once for each encoder. */
  ghost predicate Stamped(enc: Encoder, m: Metric, now: int, ts: int) {
    match m.timestampMs
    case None => ts == now
    case Some(t) => ts == if enc.Rust? && t == 0 then now else t
  }

  /** One sample under a name, the metric's labels and possibly one label more. */
  ghost predicate IsSeries(s: TimeSeries, name: string, labels: seq<Label>, extra: seq<Label>, value: Double, ts: int) {
    s == TimeSeries([Label("__name__", name)] + labels + extra, [Sample(value, ts)])
  }

  /** Counters and gauges: one series in both, untyped: one in Go and none in Rust. */
  lemma SimpleEmission(enc: Encoder, num: Numbers, name: string, m: Metric, now: int) returns (ts: int)
    ensures Stamped(enc, m, now, ts)
    ensures
      var series := MetricSeries(enc, num, name, COUNTER, m, now);
      |series| == 1 && IsSeries(series[0], name, m.labels, [], m.counter, ts)
    ensures
      var series := MetricSeries(enc, num, name, GAUGE, m, now);
      |series| == 1 && IsSeries(series[0], name, m.labels, [], m.gauge, ts)
    ensures
      var series := MetricSeries(enc, num, name, UNTYPED, m, now);
      if enc.Go? then |series| == 1 && IsSeries(series[0], name, m.labels, [], m.untyped, ts) else series == []
    ensures MetricSeries(enc, num, name, GAUGE_HISTOGRAM, m, now) == []
  {
    ts := Timestamp(enc, m, now);
    assert [Label("__name__", name)] + m.labels + [] == Named(name, m.labels);
  }

  /** Histograms: sum, count, one cumulative bucket a bound, and `+Inf` with the count. */
  lemma HistogramEmission(enc: Encoder, num: Numbers, name: string, m: Metric, now: int) returns (ts: int)
    ensures Stamped(enc, m, now, ts)
    ensures
      var series, h := MetricSeries(enc, num, name, HISTOGRAM, m, now), m.histogram;
      && |series| == 3 + |h.buckets|
      && IsSeries(series[0], name + "_sum", m.labels, [], h.sum, ts)
      && IsSeries(series[1], name + "_count", m.labels, [], num.ofCount(h.count), ts)
      && (forall i :: 0 <= i < |h.buckets| ==>
            IsSeries(series[2 + i], name + "_bucket", m.labels, [Label("le", num.format(h.buckets[i].upperBound))],
                     num.ofCount(h.buckets[i].cumulativeCount), ts))
      && IsSeries(series[2 + |h.buckets|], name + "_bucket", m.labels, [Label("le", "+Inf")], num.ofCount(h.count), ts)
  {
    ts := Timestamp(enc, m, now);
    var series, bs := MetricSeries(enc, num, name, HISTOGRAM, m, now), m.histogram.buckets;
    PlainLabels(name + "_sum", m.labels);
    PlainLabels(name + "_count", m.labels);
    BucketAt(num, name, m.labels, bs, ts, 0);
    forall i | 0 <= i < |bs|
      ensures IsSeries(series[2 + i], name + "_bucket", m.labels, [Label("le", num.format(bs[i].upperBound))],
                       num.ofCount(bs[i].cumulativeCount), ts)
    {
      BucketIs(num, name, m.labels, bs, ts, i);
      assert series[2 + i] == BucketSeries(num, name, m.labels, bs, ts)[i];
    }
  }

  lemma PlainLabels(name: string, labels: seq<Label>)
    ensures [Label("__name__", name)] + labels + [] == Named(name, labels)
  {
  }

  lemma {:induction false} BucketIs(num: Numbers, name: string, labels: seq<Label>, bs: seq<Bucket>, ts: int, i: nat)
    requires i < |bs|
    ensures i < |BucketSeries(num, name, labels, bs, ts)|
    ensures IsSeries(BucketSeries(num, name, labels, bs, ts)[i], name + "_bucket", labels,
                     [Label("le", num.format(bs[i].upperBound))], num.ofCount(bs[i].cumulativeCount), ts)
  {
    if i == 0 {
    } else {
      BucketIs(num, name, labels, bs[1..], ts, i - 1);
    }
  }

  /** Summaries: sum, count, and one series a quantile. */
  lemma SummaryEmission(enc: Encoder, num: Numbers, name: string, m: Metric, now: int) returns (ts: int)
    ensures Stamped(enc, m, now, ts)
    ensures
      var series, s := MetricSeries(enc, num, name, SUMMARY, m, now), m.summary;
      && |series| == 2 + |s.quantiles|
      && IsSeries(series[0], name + "_sum", m.labels, [], s.sum, ts)
      && IsSeries(series[1], name + "_count", m.labels, [], num.ofCount(s.count), ts)
      && (forall i :: 0 <= i < |s.quantiles| ==>
            IsSeries(series[2 + i], name, m.labels, [Label("quantile", num.format(s.quantiles[i].quantile))],
                     s.quantiles[i].value, ts))
  {
    ts := Timestamp(enc, m, now);
    var series, qs := MetricSeries(enc, num, name, SUMMARY, m, now), m.summary.quantiles;
    PlainLabels(name + "_sum", m.labels);
    PlainLabels(name + "_count", m.labels);
    QuantileAt(num, name, m.labels, qs, ts, 0);
    forall i | 0 <= i < |qs|
      ensures IsSeries(series[2 + i], name, m.labels, [Label("quantile", num.format(qs[i].quantile))], qs[i].value, ts)
    {
      QuantileIs(num, name, m.labels, qs, ts, i);
      assert series[2 + i] == QuantileSeries(num, name, m.labels, qs, ts)[i];
    }
  }

  lemma {:induction false} QuantileIs(num: Numbers, name: string, labels: seq<Label>, qs: seq<Quantile>, ts: int,
                                      i: nat)
    requires i < |qs|
    ensures i < |QuantileSeries(num, name, labels, qs, ts)|
    ensures IsSeries(QuantileSeries(num, name, labels, qs, ts)[i], name, labels,
                     [Label("quantile", num.format(qs[i].quantile))], qs[i].value, ts)
  {
    if i == 0 {
    } else {
      QuantileIs(num, name, labels, qs[1..], ts, i - 1);
    }
  }

  // ---------------------------------------------------------------- the whole list

  /** The number of series of one metric. */
  function Width(enc: Encoder, mtype: MetricType, m: Metric): nat {
    match mtype
    case COUNTER => 1
    case GAUGE => 1
    case UNTYPED => if enc.Go? then 1 else 0
    case HISTOGRAM => 3 + |m.histogram.buckets|
    case SUMMARY => 2 + |m.summary.quantiles|
    case GAUGE_HISTOGRAM => 0
  }

  function WidthOfFamily(enc: Encoder, mtype: MetricType, ms: seq<Metric>): nat {
    if ms == [] then 0 else Width(enc, mtype, ms[0]) + WidthOfFamily(enc, mtype, ms[1..])
  }

  function WidthOfAll(enc: Encoder, fs: seq<MetricFamily>): nat {
    if fs == [] then 0 else WidthOfFamily(enc, fs[0].mtype, fs[0].metrics) + WidthOfAll(enc, fs[1..])
  }

  lemma MetricWidth(enc: Encoder, num: Numbers, name: string, mtype: MetricType, m: Metric, now: int)
    ensures |MetricSeries(enc, num, name, mtype, m, now)| == Width(enc, mtype, m)
  {
    if mtype.HISTOGRAM? {
      var ts := HistogramEmission(enc, num, name, m, now);
    } else if mtype.SUMMARY? {
      var ts := SummaryEmission(enc, num, name, m, now);
    } else {
      var ts := SimpleEmission(enc, num, name, m, now);
    }
  }

  lemma {:induction false} FamilyWidth(enc: Encoder, num: Numbers, name: string, mtype: MetricType, ms: seq<Metric>,
                                       now: int)
    ensures |FamilySeries(enc, num, name, mtype, ms, now)| == WidthOfFamily(enc, mtype, ms)
  {
    if ms == [] {
    } else {
      MetricWidth(enc, num, name, mtype, ms[0], now);
      FamilyWidth(enc, num, name, mtype, ms[1..], now);
    }
  }

  /** `all` holds `part` from position `at` on. */
  ghost predicate Holds(all: seq<TimeSeries>, at: nat, part: seq<TimeSeries>) {
    at + |part| <= |all| && all[at..at + |part|] == part
  }

  lemma HoldsInside(head: seq<TimeSeries>, all: seq<TimeSeries>, tail: seq<TimeSeries>, at: nat, part: seq<TimeSeries>)
    requires Holds(all, at, part)
    ensures Holds(head + all + tail, |head| + at, part)
  {
    assert (head + all + tail)[|head| + at..|head| + at + |part|] == all[at..at + |part|];
  }

  lemma {:induction false} FamilyInOrder(enc: Encoder, num: Numbers, name: string, mtype: MetricType, ms: seq<Metric>,
                                         now: int, k: nat)
    requires k < |ms|
    ensures Holds(FamilySeries(enc, num, name, mtype, ms, now), WidthOfFamily(enc, mtype, ms[..k]),
                  MetricSeries(enc, num, name, mtype, ms[k], now))
  {
    var first := MetricSeries(enc, num, name, mtype, ms[0], now);
    var later := FamilySeries(enc, num, name, mtype, ms[1..], now);
    if k == 0 {
      assert (first + later)[0..|first|] == first;
    } else {
      FamilyInOrder(enc, num, name, mtype, ms[1..], now, k - 1);
      MetricWidth(enc, num, name, mtype, ms[0], now);
      assert ms[..k][1..] == ms[1..][..k - 1];
      HoldsInside(first, later, [], WidthOfFamily(enc, mtype, ms[1..][..k - 1]),
                  MetricSeries(enc, num, name, mtype, ms[k], now));
      assert first + later + [] == first + later;
    }
  }

  /** A later family's series stand behind those of the first. */
  lemma {:induction false} BehindFirst(enc: Encoder, num: Numbers, fs: seq<MetricFamily>, now: int, at: nat,
                                       part: seq<TimeSeries>)
    requires fs != [] && Holds(Flatten(enc, num, fs[1..], now), at, part)
    ensures Holds(Flatten(enc, num, fs, now), WidthOfFamily(enc, fs[0].mtype, fs[0].metrics) + at, part)
  {
    var first := FamilySeries(enc, num, fs[0].name, fs[0].mtype, fs[0].metrics, now);
    var later := Flatten(enc, num, fs[1..], now);
    FamilyWidth(enc, num, fs[0].name, fs[0].mtype, fs[0].metrics, now);
    HoldsInside(first, later, [], at, part);
    assert first + later + [] == first + later;
  }

  lemma {:induction false} InFirst(enc: Encoder, num: Numbers, fs: seq<MetricFamily>, now: int, k: nat)
    requires fs != [] && k < |fs[0].metrics|
    ensures Holds(Flatten(enc, num, fs, now), WidthOfFamily(enc, fs[0].mtype, fs[0].metrics[..k]),
                  MetricSeries(enc, num, fs[0].name, fs[0].mtype, fs[0].metrics[k], now))
  {
    var f := fs[0];
    var first, later := FamilySeries(enc, num, f.name, f.mtype, f.metrics, now), Flatten(enc, num, fs[1..], now);
    FamilyInOrder(enc, num, f.name, f.mtype, f.metrics, now, k);
    HoldsInside([], first, later, WidthOfFamily(enc, f.mtype, f.metrics[..k]),
                MetricSeries(enc, num, f.name, f.mtype, f.metrics[k], now));
    assert [] + first + later == first + later;
  }

  /**
  Nothing but this, and in this order: the series of the k-th metric of family `f` stand right after
  those of all metrics before it, and the list is as long as all of them together.
  */
  lemma {:induction false} EmittedInOrder(enc: Encoder, num: Numbers, fs: seq<MetricFamily>, now: int, f: nat, k: nat)
    requires f < |fs| && k < |fs[f].metrics|
    ensures Holds(Flatten(enc, num, fs, now),
                  WidthOfAll(enc, fs[..f]) + WidthOfFamily(enc, fs[f].mtype, fs[f].metrics[..k]),
                  MetricSeries(enc, num, fs[f].name, fs[f].mtype, fs[f].metrics[k], now))
    ensures |Flatten(enc, num, fs, now)| == WidthOfAll(enc, fs)
  {
    EmittedLength(enc, num, fs, now);
    if f == 0 {
      InFirst(enc, num, fs, now, k);
    } else {
      var g := fs[f];
      assert fs[1..][f - 1] == g && fs[..f][0] == fs[0] && fs[..f][1..] == fs[1..][..f - 1];
      EmittedInOrder(enc, num, fs[1..], now, f - 1, k);
      BehindFirst(enc, num, fs, now, WidthOfAll(enc, fs[1..][..f - 1]) + WidthOfFamily(enc, g.mtype, g.metrics[..k]),
                  MetricSeries(enc, num, g.name, g.mtype, g.metrics[k], now));
    }
  }

  lemma {:induction false} EmittedLength(enc: Encoder, num: Numbers, fs: seq<MetricFamily>, now: int)
    ensures |Flatten(enc, num, fs, now)| == WidthOfAll(enc, fs)
  {
    if fs == [] {
    } else {
      FamilyWidth(enc, num, fs[0].name, fs[0].mtype, fs[0].metrics, now);
      EmittedLength(enc, num, fs[1..], now);
    }
  }
}
