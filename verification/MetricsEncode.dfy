/**
The nested loops of the two encoders, proved to compute the flattenings of module Metrics.  Both
push onto one growing list and build labels by copying and renaming; the loops over buckets and
quantiles are the same in both, the treatment of types and timestamps is not.
*/
module MetricsEncode {
  import opened Common
  import opened Metrics

  /** `with_name` / `withName` */
  method Rename(labels: seq<Label>, name: string) returns (out: seq<Label>)
    ensures out == WithName(labels, name)
    ensures (forall l :: l in labels ==> l.name != "__name__") ==> out == [Label("__name__", name)] + labels
    ensures forall i :: 0 <= i < |labels| && labels[i].name == "__name__" &&
                        (forall j :: 0 <= j < i ==> labels[j].name != "__name__") ==>
      out == labels[..i] + [Label("__name__", name)] + labels[i + 1..]
  {
    out := labels;
    for i := 0 to |out|
      invariant out == labels
      invariant forall j :: 0 <= j < i ==> labels[j].name != NAME
    {
      if out[i].name == NAME {
        out := out[i := Label(NAME, name)];
        return;
      }
    }
    out := [Label(NAME, name)] + out;
  }

  /** `labels_from_metric` / `labelsFromMetric` */
  method LabelsFromMetric(name: string, pairs: seq<Label>) returns (labels: seq<Label>)
    ensures labels == Named(name, pairs)
  {
    labels := [Label(NAME, name)];
    for i := 0 to |pairs|
      invariant labels == Named(name, pairs[..i])
    {
      labels := labels + [Label(pairs[i].name, pairs[i].value)];
    }
    assert pairs[..|pairs|] == pairs;
  }

  lemma Assoc(a: seq<TimeSeries>, b: seq<TimeSeries>, c: seq<TimeSeries>)
    ensures a + (b + c) == a + b + c
  {
  }

  method PushSumAndCount(num: Numbers, name: string, base: seq<Label>, ghost labels: seq<Label>,
                         sum: Double, count: nat, ts: int, series: seq<TimeSeries>)
    returns (out: seq<TimeSeries>)
    requires base == Named(name, labels)
    ensures out == series + SumAndCount(num, name, labels, sum, count, ts)
  {
    RenameBase(name, labels, name + "_sum");
    RenameBase(name, labels, name + "_count");
    var lbs := Rename(base, name + "_sum");
    out := series + [One(lbs, sum, ts)];
    lbs := Rename(base, name + "_count");
    out := out + [One(lbs, num.ofCount(count), ts)];
  }

  method PushBuckets(num: Numbers, name: string, base: seq<Label>, ghost labels: seq<Label>,
                     bs: seq<Bucket>, ts: int, series: seq<TimeSeries>)
    returns (out: seq<TimeSeries>)
    requires base == Named(name, labels)
    ensures out == series + BucketSeries(num, name, labels, bs, ts)
  {
    RenameBase(name, labels, name + "_bucket");
    out := series;
    for i := 0 to |bs|
      invariant out + BucketSeries(num, name, labels, bs[i..], ts) == series + BucketSeries(num, name, labels, bs, ts)
    {
      var lbs := Rename(base, name + "_bucket");
      lbs := lbs + [Label(LE, num.format(bs[i].upperBound))];
      var one := One(lbs, num.ofCount(bs[i].cumulativeCount), ts);
      assert bs[i..][1..] == bs[i + 1..];
      Assoc(out, [one], BucketSeries(num, name, labels, bs[i + 1..], ts));
      out := out + [one];
    }
  }

  method PushQuantiles(num: Numbers, name: string, base: seq<Label>, ghost labels: seq<Label>,
                       qs: seq<Quantile>, ts: int, series: seq<TimeSeries>)
    returns (out: seq<TimeSeries>)
    requires base == Named(name, labels)
    ensures out == series + QuantileSeries(num, name, labels, qs, ts)
  {
    RenameBase(name, labels, name);
    out := series;
    for i := 0 to |qs|
      invariant out + QuantileSeries(num, name, labels, qs[i..], ts) ==
        series + QuantileSeries(num, name, labels, qs, ts)
    {
      var lbs := Rename(base, name);
      lbs := lbs + [Label(QUANTILE, num.format(qs[i].quantile))];
      var one := One(lbs, qs[i].value, ts);
      assert qs[i..][1..] == qs[i + 1..];
      Assoc(out, [one], QuantileSeries(num, name, labels, qs[i + 1..], ts));
      out := out + [one];
    }
  }

  method PushHistogram(num: Numbers, name: string, m: Metric, ts: int, series: seq<TimeSeries>)
    returns (out: seq<TimeSeries>)
    ensures out == series + HistogramSeries(num, name, m.labels, m.histogram, ts)
  {
    var base := LabelsFromMetric(name, m.labels);
    var h := m.histogram;
    out := PushSumAndCount(num, name, base, m.labels, h.sum, h.count, ts, series);
    out := PushBuckets(num, name, base, m.labels, h.buckets, ts, out);
    RenameBase(name, m.labels, name + "_bucket");
    var inf := Rename(base, name + "_bucket");
    inf := inf + [Label(LE, PLUS_INF)];
    out := out + [One(inf, num.ofCount(h.count), ts)];
  }

  method PushSummary(num: Numbers, name: string, m: Metric, ts: int, series: seq<TimeSeries>)
    returns (out: seq<TimeSeries>)
    ensures out == series + SummarySeries(num, name, m.labels, m.summary, ts)
  {
    var base := LabelsFromMetric(name, m.labels);
    var s := m.summary;
    out := PushSumAndCount(num, name, base, m.labels, s.sum, s.count, ts, series);
    out := PushQuantiles(num, name, base, m.labels, s.quantiles, ts, out);
  }

  // ---------------------------------------------------------------- src/prom_proxy/encode.rs

  /** The body of the inner loop: one metric of the family. */
  method PushMetricRust(num: Numbers, f: MetricFamily, m: Metric, now: int, series: seq<TimeSeries>)
    returns (out: seq<TimeSeries>)
    ensures out == series + MetricSeries(Rust, num, f.name, f.mtype, m, now)
  {
    var base := LabelsFromMetric(f.name, m.labels);
    var stamp := if m.timestampMs.Some? then m.timestampMs.value else 0;
    var ts := if stamp != 0 then stamp else now;
    match f.mtype {
      case COUNTER => out := series + [One(base, m.counter, ts)];
      case GAUGE => out := series + [One(base, m.gauge, ts)];
      case HISTOGRAM => out := PushHistogram(num, f.name, m, ts, series);
      case SUMMARY => out := PushSummary(num, f.name, m, ts, series);
      case _ => out := series;
    }
  }

  method PushFamilyRust(num: Numbers, f: MetricFamily, now: int, series: seq<TimeSeries>)
    returns (out: seq<TimeSeries>)
    ensures out == series + FamilySeries(Rust, num, f.name, f.mtype, f.metrics, now)
  {
    out := series;
    for j := 0 to |f.metrics|
      invariant out + FamilySeries(Rust, num, f.name, f.mtype, f.metrics[j..], now) ==
        series + FamilySeries(Rust, num, f.name, f.mtype, f.metrics, now)
    {
      var m := f.metrics[j];
      assert f.metrics[j..][1..] == f.metrics[j + 1..];
      Assoc(out, MetricSeries(Rust, num, f.name, f.mtype, m, now),
            FamilySeries(Rust, num, f.name, f.mtype, f.metrics[j + 1..], now));
      out := PushMetricRust(num, f, m, now, out);
    }
  }

  /** `encode_metric_families`, up to the protobuf encoding of the list. */
  method EncodeRust(num: Numbers, fs: seq<MetricFamily>, now: int) returns (series: seq<TimeSeries>)
    ensures series == Flatten(Rust, num, fs, now)
  {
    series := [];
    for i := 0 to |fs|
      invariant series + Flatten(Rust, num, fs[i..], now) == Flatten(Rust, num, fs, now)
    {
      var f := fs[i];
      assert fs[i..][1..] == fs[i + 1..];
      Assoc(series, FamilySeries(Rust, num, f.name, f.mtype, f.metrics, now), Flatten(Rust, num, fs[i + 1..], now));
      series := PushFamilyRust(num, f, now, series);
    }
  }

  // ---------------------------------------------------------------- promproxy/encode.go

  /** The body of the inner loop; `None` is the unsupported-type error. */
  method AppendMetricGo(num: Numbers, f: MetricFamily, m: Metric, now: int, tss: seq<TimeSeries>)
    returns (out: Option<seq<TimeSeries>>)
    ensures out == if f.mtype.GAUGE_HISTOGRAM? then None else Some(tss + MetricSeries(Go, num, f.name, f.mtype, m, now))
  {
    var base := LabelsFromMetric(f.name, m.labels);
    var ts := now;
    if m.timestampMs.Some? {
      ts := m.timestampMs.value;
    }
    match f.mtype {
      case COUNTER => out := Some(tss + [One(base, m.counter, ts)]);
      case GAUGE => out := Some(tss + [One(base, m.gauge, ts)]);
      case UNTYPED => out := Some(tss + [One(base, m.untyped, ts)]);
      case HISTOGRAM => var more := PushHistogram(num, f.name, m, ts, tss); out := Some(more);
      case SUMMARY => var more := PushSummary(num, f.name, m, ts, tss); out := Some(more);
      case GAUGE_HISTOGRAM => out := None;
    }
  }

  method AppendFamilyGo(num: Numbers, f: MetricFamily, now: int, tss: seq<TimeSeries>)
    returns (out: Option<seq<TimeSeries>>)
    ensures out == if GoRejects(f) then None else Some(tss + FamilySeries(Go, num, f.name, f.mtype, f.metrics, now))
  {
    var acc := tss;
    for j := 0 to |f.metrics|
      invariant j > 0 ==> !f.mtype.GAUGE_HISTOGRAM?
      invariant acc + FamilySeries(Go, num, f.name, f.mtype, f.metrics[j..], now) ==
        tss + FamilySeries(Go, num, f.name, f.mtype, f.metrics, now)
    {
      var m := f.metrics[j];
      assert f.metrics[j..][1..] == f.metrics[j + 1..];
      Assoc(acc, MetricSeries(Go, num, f.name, f.mtype, m, now),
            FamilySeries(Go, num, f.name, f.mtype, f.metrics[j + 1..], now));
      var pushed := AppendMetricGo(num, f, m, now, acc);
      if pushed.None? {
        return None;
      }
      acc := pushed.value;
    }
    assert acc + [] == acc;
    out := Some(acc);
  }

  /** What the outer loop will return: `tss` already appended, `fs` to come. */
  function GoRest(num: Numbers, tss: seq<TimeSeries>, fs: seq<Option<MetricFamily>>, now: int)
    : Option<seq<TimeSeries>>
  {
    match GoFlatten(num, fs, now)
    case Some(rest) => Some(tss + rest)
    case None => None
  }

  lemma {:induction false} GoRestStep(num: Numbers, tss: seq<TimeSeries>, fs: seq<Option<MetricFamily>>, now: int)
    requires fs != []
    ensures fs[0].None? ==> GoRest(num, tss, fs, now) == GoRest(num, tss, fs[1..], now)
    ensures fs[0].Some? ==>
      var f := fs[0].value;
      GoRest(num, tss, fs, now) ==
        if GoRejects(f) then None
        else GoRest(num, tss + FamilySeries(Go, num, f.name, f.mtype, f.metrics, now), fs[1..], now)
  {
    if fs[0].Some? && GoFlatten(num, fs[1..], now).Some? {
      var f := fs[0].value;
      Assoc(tss, FamilySeries(Go, num, f.name, f.mtype, f.metrics, now), GoFlatten(num, fs[1..], now).value);
    }
  }

  /** `EncodeMetricFamilies`, up to the protobuf encoding of the list. */
  method EncodeGo(num: Numbers, fs: seq<Option<MetricFamily>>, now: int) returns (result: Option<seq<TimeSeries>>)
    ensures result == GoFlatten(num, fs, now)
  {
    var tss: seq<TimeSeries> := [];
    assert fs[0..] == fs;
    if GoFlatten(num, fs, now).Some? {
      assert [] + GoFlatten(num, fs, now).value == GoFlatten(num, fs, now).value;
    }
    for i := 0 to |fs|
      invariant GoRest(num, tss, fs[i..], now) == GoFlatten(num, fs, now)
    {
      GoRestStep(num, tss, fs[i..], now);
      assert fs[i..][1..] == fs[i + 1..];
      if fs[i].None? {
        continue;
      }
      var appended := AppendFamilyGo(num, fs[i].value, now, tss);
      if appended.None? {
        return None;
      }
      tss := appended.value;
    }
    result := Some(tss);
    assert tss + [] == tss;
  }
}
