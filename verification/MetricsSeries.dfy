/**
The identity of the series that flattening produces: no two carry the same labels, and the labels of
each are well-formed, and sorted exactly when they can be.
*/
module MetricsSeries {
  import opened Common
  import opened Metrics
  import opened MetricsDecode

  // ---------------------------------------------------------------- shape of a series

  /** The names of a family's series that carry just the metric's labels. */
  function PlainNames(name: string, mtype: MetricType): set<string> {
    match mtype
    case COUNTER => {name}
    case GAUGE => {name}
    case UNTYPED => {name}
    case HISTOGRAM => {name + "_sum", name + "_count"}
    case SUMMARY => {name + "_sum", name + "_count"}
    case GAUGE_HISTOGRAM => {}
  }

  /** The extra label of bucket and quantile series. */
  function TagLabel(mtype: MetricType): string {
    if mtype.HISTOGRAM? then LE else QUANTILE
  }

  predicate IsPlain(s: TimeSeries, name: string, mtype: MetricType, labels: seq<Label>) {
    NameOf(s) in PlainNames(name, mtype) && s.labels == Named(NameOf(s), labels)
  }

  predicate IsTagged(s: TimeSeries, name: string, mtype: MetricType, labels: seq<Label>) {
    HasDerivedNames(mtype) && s.labels == Tagged(TaggedName(name, mtype), labels, TagLabel(mtype), TagOf(s))
  }

  predicate Shaped(s: TimeSeries, name: string, mtype: MetricType, labels: seq<Label>) {
    IsPlain(s, name, mtype, labels) || IsTagged(s, name, mtype, labels)
  }

  lemma {:induction false} BucketAt(num: Numbers, name: string, labels: seq<Label>, bs: seq<Bucket>, ts: int, i: nat)
    ensures |BucketSeries(num, name, labels, bs, ts)| == |bs|
    ensures i < |bs| ==>
      BucketSeries(num, name, labels, bs, ts)[i].labels ==
      Tagged(name + "_bucket", labels, LE, num.format(bs[i].upperBound))
  {
    if bs == [] {
    } else {
      BucketAt(num, name, labels, bs[1..], ts, if i > 0 then i - 1 else 0);
    }
  }

  lemma {:induction false} QuantileAt(num: Numbers, name: string, labels: seq<Label>, qs: seq<Quantile>, ts: int,
                                      i: nat)
    ensures |QuantileSeries(num, name, labels, qs, ts)| == |qs|
    ensures i < |qs| ==>
      QuantileSeries(num, name, labels, qs, ts)[i].labels ==
      Tagged(name, labels, QUANTILE, num.format(qs[i].quantile))
  {
    if qs == [] {
    } else {
      QuantileAt(num, name, labels, qs[1..], ts, if i > 0 then i - 1 else 0);
    }
  }

  lemma TaggedText(name: string, labels: seq<Label>, tag: string, text: string, s: TimeSeries)
    requires s.labels == Tagged(name, labels, tag, text)
    ensures NameOf(s) == name && TagOf(s) == text
  {
  }

  /** Every series of a metric has one of the two shapes. */
  lemma SeriesShaped(num: Numbers, name: string, mtype: MetricType, m: Metric, ts: int, i: nat)
    requires i < |SeriesOf(num, name, mtype, m, ts)|
    ensures Shaped(SeriesOf(num, name, mtype, m, ts)[i], name, mtype, m.labels)
  {
    var s := SeriesOf(num, name, mtype, m, ts)[i];
    match mtype
    case HISTOGRAM =>
      var bs := m.histogram.buckets;
      BucketAt(num, name, m.labels, bs, ts, if 2 <= i then i - 2 else 0);
      if 2 <= i < 2 + |bs| {
        assert s == BucketSeries(num, name, m.labels, bs, ts)[i - 2];
        TaggedText(name + "_bucket", m.labels, LE, num.format(bs[i - 2].upperBound), s);
      } else if i == 2 + |bs| {
        TaggedText(name + "_bucket", m.labels, LE, PLUS_INF, s);
      }
    case SUMMARY =>
      var qs := m.summary.quantiles;
      QuantileAt(num, name, m.labels, qs, ts, if 2 <= i then i - 2 else 0);
      if 2 <= i {
        assert s == QuantileSeries(num, name, m.labels, qs, ts)[i - 2];
        TaggedText(name, m.labels, QUANTILE, num.format(qs[i - 2].quantile), s);
      }
    case _ =>
  }

  /** Where a series of a family comes from. */
  lemma {:induction false} FamilyShaped(enc: Encoder, num: Numbers, name: string, mtype: MetricType, ms: seq<Metric>,
                                        now: int, i: nat)
    returns (k: nat)
    requires i < |FamilySeries(enc, num, name, mtype, ms, now)|
    ensures k < |ms| && Shaped(FamilySeries(enc, num, name, mtype, ms, now)[i], name, mtype, ms[k].labels)
  {
    var first := MetricSeries(enc, num, name, mtype, ms[0], now);
    if i < |first| {
      SeriesShaped(num, name, mtype, ms[0], Timestamp(enc, ms[0], now), i);
      k := 0;
    } else {
      k := FamilyShaped(enc, num, name, mtype, ms[1..], now, i - |first|);
      k := k + 1;
    }
  }

  lemma {:induction false} FlattenShaped(enc: Encoder, num: Numbers, fs: seq<MetricFamily>, now: int, i: nat)
    returns (f: nat, k: nat)
    requires i < |Flatten(enc, num, fs, now)|
    ensures f < |fs| && k < |fs[f].metrics|
    ensures Shaped(Flatten(enc, num, fs, now)[i], fs[f].name, fs[f].mtype, fs[f].metrics[k].labels)
  {
    var first := FamilySeries(enc, num, fs[0].name, fs[0].mtype, fs[0].metrics, now);
    if i < |first| {
      k := FamilyShaped(enc, num, fs[0].name, fs[0].mtype, fs[0].metrics, now, i);
      f := 0;
    } else {
      f, k := FlattenShaped(enc, num, fs[1..], now, i - |first|);
      f := f + 1;
    }
  }

  // ---------------------------------------------------------------- distinct series

  ghost predicate DistinctSeries(s: seq<TimeSeries>) {
    forall i, j :: 0 <= i < j < |s| ==> s[i].labels != s[j].labels
  }

  ghost predicate Apart(a: seq<TimeSeries>, b: seq<TimeSeries>) {
    forall i, j :: 0 <= i < |a| && 0 <= j < |b| ==> a[i].labels != b[j].labels
  }

  lemma DistinctAppend(a: seq<TimeSeries>, b: seq<TimeSeries>)
    ensures DistinctSeries(a + b) <==> DistinctSeries(a) && DistinctSeries(b) && Apart(a, b)
  {
    if DistinctSeries(a + b) {
      forall i, j | 0 <= i < j < |a| ensures a[i].labels != a[j].labels {
        assert (a + b)[i] == a[i] && (a + b)[j] == a[j];
      }
      forall i, j | 0 <= i < j < |b| ensures b[i].labels != b[j].labels {
        assert (a + b)[|a| + i] == b[i] && (a + b)[|a| + j] == b[j];
      }
      forall i, j | 0 <= i < |a| && 0 <= j < |b| ensures a[i].labels != b[j].labels {
        assert (a + b)[i] == a[i] && (a + b)[|a| + j] == b[j];
      }
    }
  }

  lemma TaggedInjective(name: string, labels: seq<Label>, tag: string, x: string, y: string)
    ensures Tagged(name, labels, tag, x) == Tagged(name, labels, tag, y) <==> x == y
  {
    assert Tagged(name, labels, tag, x)[|labels| + 1] == Label(tag, x);
    assert Tagged(name, labels, tag, y)[|labels| + 1] == Label(tag, y);
  }

  /** Bounds print differently from each other and from `+Inf`. */
  predicate DistinctBounds(num: Numbers, bs: seq<Bucket>) {
    && (forall i, j :: 0 <= i < j < |bs| ==> num.format(bs[i].upperBound) != num.format(bs[j].upperBound))
    && (forall i :: 0 <= i < |bs| ==> num.format(bs[i].upperBound) != PLUS_INF)
  }

  predicate DistinctQuantiles(num: Numbers, qs: seq<Quantile>) {
    forall i, j :: 0 <= i < j < |qs| ==> num.format(qs[i].quantile) != num.format(qs[j].quantile)
  }

  predicate DistinctTags(num: Numbers, mtype: MetricType, m: Metric) {
    match mtype
    case HISTOGRAM => DistinctBounds(num, m.histogram.buckets)
    case SUMMARY => DistinctQuantiles(num, m.summary.quantiles)
    case _ => true
  }

  /** A list of series that carry the same labels but for the text of the last one. */
  ghost predicate TaggedAlike(series: seq<TimeSeries>, name: string, labels: seq<Label>, tag: string,
                              texts: seq<string>)
  {
    |series| == |texts| && forall i :: 0 <= i < |series| ==> series[i].labels == Tagged(name, labels, tag, texts[i])
  }

  lemma DistinctTexts(series: seq<TimeSeries>, name: string, labels: seq<Label>, tag: string, texts: seq<string>)
    requires TaggedAlike(series, name, labels, tag, texts)
    ensures DistinctSeries(series) <==> forall i, j :: 0 <= i < j < |texts| ==> texts[i] != texts[j]
  {
    forall i, j | 0 <= i < j < |texts| ensures series[i].labels == series[j].labels <==> texts[i] == texts[j] {
      TaggedInjective(name, labels, tag, texts[i], texts[j]);
    }
  }

  lemma {:induction false} BucketsDistinct(num: Numbers, name: string, m: Metric, ts: int)
    ensures
      var bs := BucketSeries(num, name, m.labels, m.histogram.buckets, ts);
      DistinctSeries(bs + [InfBucket(num, name, m.labels, m.histogram, ts)]) <==>
        DistinctBounds(num, m.histogram.buckets)
  {
    var bs := m.histogram.buckets;
    var all := BucketSeries(num, name, m.labels, bs, ts) + [InfBucket(num, name, m.labels, m.histogram, ts)];
    var texts := seq(|bs|, i requires 0 <= i < |bs| => num.format(bs[i].upperBound)) + [PLUS_INF];
    BucketAt(num, name, m.labels, bs, ts, 0);
    forall i | 0 <= i < |bs| ensures all[i].labels == Tagged(name + "_bucket", m.labels, LE, texts[i]) {
      BucketAt(num, name, m.labels, bs, ts, i);
    }
    DistinctTexts(all, name + "_bucket", m.labels, LE, texts);
    if DistinctSeries(all) {
      forall i | 0 <= i < |bs| ensures num.format(bs[i].upperBound) != PLUS_INF { assert texts[i] != texts[|bs|]; }
      forall i, j | 0 <= i < j < |bs| ensures num.format(bs[i].upperBound) != num.format(bs[j].upperBound) {
        assert texts[i] != texts[j];
      }
    }
  }

  lemma {:induction false} QuantilesDistinct(num: Numbers, name: string, m: Metric, ts: int)
    ensures DistinctSeries(QuantileSeries(num, name, m.labels, m.summary.quantiles, ts)) <==>
      DistinctQuantiles(num, m.summary.quantiles)
  {
    var qs := m.summary.quantiles;
    var series := QuantileSeries(num, name, m.labels, qs, ts);
    var texts := seq(|qs|, i requires 0 <= i < |qs| => num.format(qs[i].quantile));
    QuantileAt(num, name, m.labels, qs, ts, 0);
    forall i | 0 <= i < |qs| ensures series[i].labels == Tagged(name, m.labels, QUANTILE, texts[i]) {
      QuantileAt(num, name, m.labels, qs, ts, i);
    }
    DistinctTexts(series, name, m.labels, QUANTILE, texts);
    if DistinctSeries(series) {
      forall i, j | 0 <= i < j < |qs| ensures num.format(qs[i].quantile) != num.format(qs[j].quantile) {
        assert texts[i] != texts[j];
      }
    }
  }

  /** Sum and count differ from each other and from every series of another name. */
  lemma HeadApart(num: Numbers, name: string, labels: seq<Label>, sum: Double, count: nat, ts: int,
                  rest: seq<TimeSeries>)
    requires forall i :: 0 <= i < |rest| ==> NameOf(rest[i]) == name || NameOf(rest[i]) == name + "_bucket"
    ensures DistinctSeries(SumAndCount(num, name, labels, sum, count, ts) + rest) <==> DistinctSeries(rest)
  {
    var head := SumAndCount(num, name, labels, sum, count, ts);
    SuffixesDiffer(name, name);
    assert |name| != |name + "_sum"| && |name| != |name + "_count"|;
    assert NameOf(head[0]) == name + "_sum" && NameOf(head[1]) == name + "_count";
    DistinctAppend(head, rest);
  }

  /** The series of one metric are distinct exactly when its bounds or quantiles print distinctly. */
  lemma MetricDistinct(num: Numbers, name: string, mtype: MetricType, m: Metric, ts: int)
    ensures DistinctSeries(SeriesOf(num, name, mtype, m, ts)) <==> DistinctTags(num, mtype, m)
  {
    match mtype
    case HISTOGRAM =>
      var h := m.histogram;
      var bs, inf := BucketSeries(num, name, m.labels, h.buckets, ts), InfBucket(num, name, m.labels, h, ts);
      BucketsDistinct(num, name, m, ts);
      forall i | 0 <= i < |bs + [inf]| ensures NameOf((bs + [inf])[i]) == name + "_bucket" {
        BucketAt(num, name, m.labels, h.buckets, ts, i);
      }
      HeadApart(num, name, m.labels, h.sum, h.count, ts, bs + [inf]);
      Assoc3(SumAndCount(num, name, m.labels, h.sum, h.count, ts), bs, [inf]);
    case SUMMARY =>
      var s := m.summary;
      var qs := QuantileSeries(num, name, m.labels, s.quantiles, ts);
      QuantilesDistinct(num, name, m, ts);
      forall i | 0 <= i < |qs| ensures NameOf(qs[i]) == name {
        QuantileAt(num, name, m.labels, s.quantiles, ts, i);
      }
      HeadApart(num, name, m.labels, s.sum, s.count, ts, qs);
    case _ =>
  }

  /** Within a family the labels of a series determine the label list of the metric it comes from. */
  lemma ShapeDetermines(s: TimeSeries, t: TimeSeries, name: string, mtype: MetricType, l1: seq<Label>, l2: seq<Label>)
    requires Shaped(s, name, mtype, l1) && Shaped(t, name, mtype, l2) && s.labels == t.labels
    ensures l1 == l2
  {
    if HasDerivedNames(mtype) {
      SuffixesDiffer(name, name);
      assert |name| != |name + "_sum"| && |name| != |name + "_count"|;
    }
    if IsPlain(s, name, mtype, l1) && IsPlain(t, name, mtype, l2) {
      assert s.labels[1..] == l1 && t.labels[1..] == l2;
    } else if IsTagged(s, name, mtype, l1) && IsTagged(t, name, mtype, l2) {
      assert s.labels[1..|s.labels| - 1] == l1 && t.labels[1..|t.labels| - 1] == l2;
    } else {
      assert false;
    }
  }

  predicate DistinctLabelLists(ms: seq<Metric>) {
    forall i, j :: 0 <= i < j < |ms| ==> ms[i].labels != ms[j].labels
  }

  predicate AllDistinctTags(num: Numbers, mtype: MetricType, ms: seq<Metric>) {
    forall i :: 0 <= i < |ms| ==> DistinctTags(num, mtype, ms[i])
  }

  /** What makes the series of one family distinct, if the encoder is for its type. */
  predicate FamilyOk(enc: Encoder, num: Numbers, mtype: MetricType, ms: seq<Metric>) {
    mtype in {COUNTER, GAUGE, HISTOGRAM, SUMMARY} || (mtype == UNTYPED && enc == Go) ==>
      DistinctLabelLists(ms) && AllDistinctTags(num, mtype, ms)
  }

  /** The name of the first series of a metric. */
  function FirstSeriesName(name: string, mtype: MetricType): string {
    if HasDerivedNames(mtype) then name + "_sum" else name
  }

  /** Every metric of a supported family has a series with its labels under the first name. */
  lemma {:induction false} FamilyHas(enc: Encoder, num: Numbers, name: string, mtype: MetricType, ms: seq<Metric>,
                                     now: int, k: nat)
    returns (i: nat)
    requires Supported(enc, mtype) && k < |ms|
    ensures i < |FamilySeries(enc, num, name, mtype, ms, now)|
    ensures FamilySeries(enc, num, name, mtype, ms, now)[i].labels == Named(FirstSeriesName(name, mtype), ms[k].labels)
  {
    if k == 0 {
      i := 0;
    } else {
      i := FamilyHas(enc, num, name, mtype, ms[1..], now, k - 1);
      i := |MetricSeries(enc, num, name, mtype, ms[0], now)| + i;
    }
  }

  predicate NotAmong(labels: seq<Label>, ms: seq<Metric>) {
    forall k :: 0 <= k < |ms| ==> labels != ms[k].labels
  }

  /** A metric's series are apart from those of the metrics after it exactly when its label list is. */
  lemma {:induction false} FirstApart(enc: Encoder, num: Numbers, name: string, mtype: MetricType, ms: seq<Metric>,
                                      now: int)
    requires ms != [] && Supported(enc, mtype)
    ensures
      var later := FamilySeries(enc, num, name, mtype, ms[1..], now);
      Apart(MetricSeries(enc, num, name, mtype, ms[0], now), later) <==> NotAmong(ms[0].labels, ms[1..])
  {
    var ts := Timestamp(enc, ms[0], now);
    var first, later := SeriesOf(num, name, mtype, ms[0], ts), FamilySeries(enc, num, name, mtype, ms[1..], now);
    if NotAmong(ms[0].labels, ms[1..]) {
      forall i, j | 0 <= i < |first| && 0 <= j < |later| ensures first[i].labels != later[j].labels {
        SeriesShaped(num, name, mtype, ms[0], ts, i);
        var k := FamilyShaped(enc, num, name, mtype, ms[1..], now, j);
        if first[i].labels == later[j].labels {
          ShapeDetermines(first[i], later[j], name, mtype, ms[0].labels, ms[1..][k].labels);
        }
      }
    }
    if Apart(first, later) {
      assert first[0].labels == Named(FirstSeriesName(name, mtype), ms[0].labels);
      forall k | 0 <= k < |ms[1..]| ensures ms[0].labels != ms[1..][k].labels {
        var i := FamilyHas(enc, num, name, mtype, ms[1..], now, k);
        assert first[0].labels != later[i].labels;
      }
    }
  }

  lemma FamilyOkCons(enc: Encoder, num: Numbers, mtype: MetricType, ms: seq<Metric>)
    requires ms != [] && Supported(enc, mtype)
    ensures FamilyOk(enc, num, mtype, ms) <==>
      DistinctTags(num, mtype, ms[0]) && NotAmong(ms[0].labels, ms[1..]) && FamilyOk(enc, num, mtype, ms[1..])
  {
    assert forall k :: 0 <= k < |ms[1..]| ==> ms[1..][k] == ms[k + 1];
    assert ms == [ms[0]] + ms[1..];
    if FamilyOk(enc, num, mtype, ms) {
      forall k | 0 <= k < |ms[1..]| ensures ms[0].labels != ms[1..][k].labels && DistinctTags(num, mtype, ms[1..][k]) {
        assert ms[1..][k] == ms[k + 1];
      }
    }
  }

  /** The series of one family are distinct exactly when its label lists and its tags are. */
  lemma {:induction false} FamilyDistinct(enc: Encoder, num: Numbers, name: string, mtype: MetricType,
                                          ms: seq<Metric>, now: int)
    ensures DistinctSeries(FamilySeries(enc, num, name, mtype, ms, now)) <==> FamilyOk(enc, num, mtype, ms)
  {
    if ms == [] {
    } else if !Supported(enc, mtype) {
      Unsupported(enc, num, name, mtype, ms, now);
    } else {
      FamilyDistinct(enc, num, name, mtype, ms[1..], now);
      MetricDistinct(num, name, mtype, ms[0], Timestamp(enc, ms[0], now));
      FirstApart(enc, num, name, mtype, ms, now);
      FamilyOkCons(enc, num, mtype, ms);
      DistinctAppend(MetricSeries(enc, num, name, mtype, ms[0], now),
                     FamilySeries(enc, num, name, mtype, ms[1..], now));
    }
  }

  lemma ShapedName(s: TimeSeries, name: string, mtype: MetricType, labels: seq<Label>)
    requires Shaped(s, name, mtype, labels)
    ensures NameOf(s) in SeriesNames(name, mtype)
  {
  }

  /** Families whose names are apart share no series. */
  lemma {:induction false} FamiliesApart(enc: Encoder, num: Numbers, fs: seq<MetricFamily>, now: int)
    requires fs != [] && NamesApart(fs)
    ensures Apart(FamilySeries(enc, num, fs[0].name, fs[0].mtype, fs[0].metrics, now), Flatten(enc, num, fs[1..], now))
  {
    var f := fs[0];
    var first, later := FamilySeries(enc, num, f.name, f.mtype, f.metrics, now), Flatten(enc, num, fs[1..], now);
    forall i, j | 0 <= i < |first| && 0 <= j < |later| ensures first[i].labels != later[j].labels {
      var k := FamilyShaped(enc, num, f.name, f.mtype, f.metrics, now, i);
      ShapedName(first[i], f.name, f.mtype, f.metrics[k].labels);
      var g, k' := FlattenShaped(enc, num, fs[1..], now, j);
      ShapedName(later[j], fs[g + 1].name, fs[g + 1].mtype, fs[g + 1].metrics[k'].labels);
      assert fs[1..][g] == fs[g + 1];
    }
  }

  predicate FamiliesDistinct(enc: Encoder, num: Numbers, fs: seq<MetricFamily>) {
    forall i :: 0 <= i < |fs| ==> FamilyOk(enc, num, fs[i].mtype, fs[i].metrics)
  }

  /**
  Distinct series.  If no two families emit series of the same name, then no two series of the whole
  output carry the same labels, the added `+Inf` buckets included, if and only if within each
  family the encoder supports label lists are distinct and bucket bounds and quantiles print
  distinctly, no bound as `+Inf`.
  */
  lemma {:induction false} SeriesAreDistinct(enc: Encoder, num: Numbers, fs: seq<MetricFamily>, now: int)
    requires NamesApart(fs)
    ensures DistinctSeries(Flatten(enc, num, fs, now)) <==> FamiliesDistinct(enc, num, fs)
  {
    if fs == [] {
    } else {
      var f := fs[0];
      FamilyDistinct(enc, num, f.name, f.mtype, f.metrics, now);
      SeriesAreDistinct(enc, num, fs[1..], now);
      FamiliesApart(enc, num, fs, now);
      DistinctAppend(FamilySeries(enc, num, f.name, f.mtype, f.metrics, now), Flatten(enc, num, fs[1..], now));
      assert FamiliesDistinct(enc, num, fs) <==>
        FamilyOk(enc, num, f.mtype, f.metrics) && FamiliesDistinct(enc, num, fs[1..]) by {
        assert fs == [f] + fs[1..];
      }
    }
  }

  /** The same of what the Go encoder returns, whenever it succeeds. */
  lemma {:induction false} GoSeriesAreDistinct(num: Numbers, gs: seq<Option<MetricFamily>>, now: int)
    requires NamesApart(Present(gs)) && GoFlatten(num, gs, now).Some?
    ensures DistinctSeries(GoFlatten(num, gs, now).value) <==> FamiliesDistinct(Go, num, Present(gs))
  {
    GoFlattens(num, gs, now);
    SeriesAreDistinct(Go, num, Present(gs), now);
  }

  /** A bound that prints as `+Inf`, as an infinite one does in Go, doubles the added bucket. */
  lemma InfiniteBoundCollides(num: Numbers, name: string, m: Metric, ts: int, i: nat)
    requires i < |m.histogram.buckets| && num.format(m.histogram.buckets[i].upperBound) == PLUS_INF
    ensures !DistinctSeries(HistogramSeries(num, name, m.labels, m.histogram, ts))
    ensures
      var all := HistogramSeries(num, name, m.labels, m.histogram, ts);
      |all| == |m.histogram.buckets| + 3 && all[i + 2].labels == all[|all| - 1].labels
  {
    var bs := m.histogram.buckets;
    BucketAt(num, name, m.labels, bs, ts, i);
    var all := HistogramSeries(num, name, m.labels, m.histogram, ts);
    assert all[i + 2] == BucketSeries(num, name, m.labels, bs, ts)[i];
    assert all[|bs| + 2] == InfBucket(num, name, m.labels, m.histogram, ts);
  }

  // ---------------------------------------------------------------- well-formed labels

  /** Lexicographic order of label names. */
  predicate Less(a: string, b: string) {
    b != [] && (a == [] || a[0] < b[0] || (a[0] == b[0] && Less(a[1..], b[1..])))
  }

  lemma {:induction false} LessIrreflexive(a: string)
    ensures !Less(a, a)
  {
    if a == [] {
    } else {
      LessIrreflexive(a[1..]);
    }
  }

  predicate SortedLabels(ls: seq<Label>) {
    forall i, j :: 0 <= i < j < |ls| ==> Less(ls[i].name, ls[j].name)
  }

  predicate UniqueNames(ls: seq<Label>) {
    forall i, j :: 0 <= i < j < |ls| ==> ls[i].name != ls[j].name
  }

  lemma SortedIsUnique(ls: seq<Label>)
    requires SortedLabels(ls)
    ensures UniqueNames(ls)
  {
    forall i, j | 0 <= i < j < |ls| ensures ls[i].name != ls[j].name { LessIrreflexive(ls[i].name); }
  }

  /** User labels as the client libraries deliver them. */
  predicate GoodUserLabels(ls: seq<Label>) {
    && SortedLabels(ls)
    && (forall i :: 0 <= i < |ls| ==> Less(NAME, ls[i].name) && ls[i].name != LE && ls[i].name != QUANTILE)
  }

  predicate AllBelow(ls: seq<Label>, tag: string) {
    forall i :: 0 <= i < |ls| ==> Less(ls[i].name, tag)
  }

  lemma TagsAboveName()
    ensures Less(NAME, LE) && Less(NAME, QUANTILE)
  {
    assert NAME[0] < LE[0] && NAME[0] < QUANTILE[0];
  }

  lemma NamedSorted(name: string, ls: seq<Label>)
    requires GoodUserLabels(ls)
    ensures SortedLabels(Named(name, ls)) && UniqueNames(Named(name, ls))
  {
    SortedIsUnique(Named(name, ls));
  }

  lemma SnocSorted(ls: seq<Label>, last: Label)
    requires SortedLabels(ls)
    ensures SortedLabels(ls + [last]) <==> AllBelow(ls, last.name)
  {
    if SortedLabels(ls + [last]) {
      forall i | 0 <= i < |ls| ensures Less(ls[i].name, last.name) {
        assert (ls + [last])[i] == ls[i] && (ls + [last])[|ls|] == last;
      }
    }
  }

  lemma SnocUnique(ls: seq<Label>, last: Label)
    requires UniqueNames(ls) && forall i :: 0 <= i < |ls| ==> ls[i].name != last.name
    ensures UniqueNames(ls + [last])
  {
  }

  /** An extra label keeps names unique, and order exactly when every user label is below it. */
  lemma TaggedSorted(name: string, ls: seq<Label>, tag: string, text: string)
    requires GoodUserLabels(ls) && (tag == LE || tag == QUANTILE)
    ensures UniqueNames(Tagged(name, ls, tag, text))
    ensures SortedLabels(Tagged(name, ls, tag, text)) <==> AllBelow(ls, tag)
  {
    TagsAboveName();
    LessIrreflexive(NAME);
    NamedSorted(name, ls);
    var named := Named(name, ls);
    assert named[0].name == NAME && forall i :: 0 <= i < |ls| ==> named[i + 1] == ls[i];
    SnocUnique(named, Label(tag, text));
    SnocSorted(named, Label(tag, text));
  }

  ghost predicate FamiliesWellLabelled(fs: seq<MetricFamily>) {
    forall f, k :: 0 <= f < |fs| && 0 <= k < |fs[f].metrics| ==> GoodUserLabels(fs[f].metrics[k].labels)
  }

  /** A series of family `f`, made from a metric with the labels `user`, is labelled as it should be. */
  ghost predicate WellFormed(s: TimeSeries, f: MetricFamily, user: seq<Label>) {
    && Shaped(s, f.name, f.mtype, user)
    && UniqueNames(s.labels)
    && s.labels[0].name == NAME
    && (IsPlain(s, f.name, f.mtype, user) ==> SortedLabels(s.labels))
    && (IsTagged(s, f.name, f.mtype, user) ==>
          (SortedLabels(s.labels) <==> AllBelow(user, TagLabel(f.mtype))))
  }

  /**
  Label well-formedness.  For user labels that are sorted, above `__name__` and not `le` or
  `quantile`, every series has unique label names with `__name__` first and only there; a series
  without an extra label is sorted, and one with an extra label is sorted exactly when every user
  label of its metric comes before it.
  */
  lemma LabelsAreWellFormed(enc: Encoder, num: Numbers, fs: seq<MetricFamily>, now: int, i: nat)
    returns (f: nat, k: nat)
    requires FamiliesWellLabelled(fs) && i < |Flatten(enc, num, fs, now)|
    ensures f < |fs| && k < |fs[f].metrics|
    ensures WellFormed(Flatten(enc, num, fs, now)[i], fs[f], fs[f].metrics[k].labels)
  {
    f, k := FlattenShaped(enc, num, fs, now, i);
    var s := Flatten(enc, num, fs, now)[i];
    var user := fs[f].metrics[k].labels;
    assert GoodUserLabels(user);
    if IsPlain(s, fs[f].name, fs[f].mtype, user) {
      NamedSorted(NameOf(s), user);
    }
    if IsTagged(s, fs[f].name, fs[f].mtype, user) {
      TaggedSorted(TaggedName(fs[f].name, fs[f].mtype), user, TagLabel(fs[f].mtype), TagOf(s));
    }
  }

  /** The same of every series that the Go encoder returns. */
  lemma GoLabelsAreWellFormed(num: Numbers, gs: seq<Option<MetricFamily>>, now: int, i: nat) returns (f: nat, k: nat)
    requires FamiliesWellLabelled(Present(gs))
    requires GoFlatten(num, gs, now).Some? && i < |GoFlatten(num, gs, now).value|
    ensures f < |Present(gs)| && k < |Present(gs)[f].metrics|
    ensures WellFormed(GoFlatten(num, gs, now).value[i], Present(gs)[f], Present(gs)[f].metrics[k].labels)
  {
    GoFlattens(num, gs, now);
    f, k := LabelsAreWellFormed(Go, num, Present(gs), now, i);
  }
}
