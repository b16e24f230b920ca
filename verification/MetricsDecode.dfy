/**
Flattening loses nothing: a decoder that is told only the names and types of the families recovers
every metric from the flat list of series, provided no two families emit series of the same name.
*/
module MetricsDecode {
  import opened Common
  import opened Metrics

  // ---------------------------------------------------------------- which family a series belongs to

  /** The values of `__name__` that the series of a family carry. */
  function SeriesNames(name: string, mtype: MetricType): set<string> {
    match mtype
    case COUNTER => {name}
    case GAUGE => {name}
    case UNTYPED => {name}
    case HISTOGRAM => {name + "_sum", name + "_count", name + "_bucket"}
    case SUMMARY => {name, name + "_sum", name + "_count"}
    case GAUGE_HISTOGRAM => {}
  }

  /** The name of the series of a histogram or summary that carry an extra label. */
  function TaggedName(name: string, mtype: MetricType): string {
    if mtype.HISTOGRAM? then name + "_bucket" else name
  }

  predicate HasDerivedNames(mtype: MetricType) {
    mtype.HISTOGRAM? || mtype.SUMMARY?
  }

  predicate DerivedName(s: string, name: string) {
    s == name + "_sum" || s == name + "_count" || s == name + "_bucket"
  }

  /** No two families emit a series of the same name. */
  predicate NamesApart(fs: seq<MetricFamily>) {
    forall i, j :: 0 <= i < j < |fs| ==>
      SeriesNames(fs[i].name, fs[i].mtype) !! SeriesNames(fs[j].name, fs[j].mtype)
  }

  /** Family names are distinct, and none is a histogram or summary name plus `_sum`, `_count` or `_bucket`. */
  predicate NoDerivedNames(fs: seq<MetricFamily>) {
    && (forall i, j :: 0 <= i < j < |fs| ==> fs[i].name != fs[j].name)
    && (forall i, j :: 0 <= i < |fs| && 0 <= j < |fs| && HasDerivedNames(fs[i].mtype) ==>
          !DerivedName(fs[j].name, fs[i].name))
  }

  lemma SuffixesDiffer(a: string, b: string)
    ensures a + "_sum" != b + "_count" && a + "_sum" != b + "_bucket" && a + "_count" != b + "_bucket"
  {
    var x, y, z := "_sum", "_count", "_bucket";
    assert (a + x)[|a + x| - 1] == 'm';
    assert (b + y)[|b + y| - 1] == 't' && (b + z)[|b + z| - 1] == 't' && (a + y)[|a + y| - 2] == 'n';
    assert (b + z)[|b + z| - 2] == 'e';
  }

  lemma SuffixCancels(a: string, b: string, x: string)
    requires a + x == b + x
    ensures a == b
  {
    assert |a| == |b|;
    assert (a + x)[..|a|] == a && (b + x)[..|b|] == b;
  }

  /** Two derived names agree only for the same family and the same suffix. */
  lemma DerivedNamesApart(a: string, b: string)
    requires a != b
    ensures forall s :: DerivedName(s, a) ==> !DerivedName(s, b)
  {
    SuffixesDiffer(a, b);
    SuffixesDiffer(b, a);
    if a + "_sum" == b + "_sum" { SuffixCancels(a, b, "_sum"); }
    if a + "_count" == b + "_count" { SuffixCancels(a, b, "_count"); }
    if a + "_bucket" == b + "_bucket" { SuffixCancels(a, b, "_bucket"); }
  }

  /** The usual condition on names is enough. */
  lemma FamiliesShareNoName(fs: seq<MetricFamily>)
    requires NoDerivedNames(fs)
    ensures NamesApart(fs)
  {
    forall i, j | 0 <= i < j < |fs|
      ensures SeriesNames(fs[i].name, fs[i].mtype) !! SeriesNames(fs[j].name, fs[j].mtype)
    {
      var a, b := fs[i], fs[j];
      assert a.name != b.name;
      DerivedNamesApart(a.name, b.name);
      assert HasDerivedNames(a.mtype) ==> !DerivedName(b.name, a.name);
      assert HasDerivedNames(b.mtype) ==> !DerivedName(a.name, b.name);
      assert forall s :: s in SeriesNames(a.name, a.mtype) ==>
        s == a.name || (HasDerivedNames(a.mtype) && DerivedName(s, a.name));
      assert forall s :: s in SeriesNames(b.name, b.mtype) ==>
        s == b.name || (HasDerivedNames(b.mtype) && DerivedName(s, b.name));
    }
  }

  function NameOf(s: TimeSeries): string {
    if s.labels == [] then "" else s.labels[0].value
  }

  /** The list is empty or starts with a series whose name is not in `names`. */
  predicate Leaves(series: seq<TimeSeries>, names: set<string>) {
    series == [] || NameOf(series[0]) !in names
  }

  // ---------------------------------------------------------------- the decoder

  /** The number conversions a decoder has. */
  datatype Reader = Reader(parse: string -> Double, toCount: Double -> nat)

  datatype Body =
    | CounterBody(value: Double)
    | GaugeBody(value: Double)
    | UntypedBody(value: Double)
    | HistogramBody(histogram: Histogram)
    | SummaryBody(summary: Summary)

  /** What a metric of a supported family says; the timestamp is the effective one. */
  datatype Content = Content(labels: seq<Label>, ts: int, body: Body)

  datatype Decoded<+T> = Decoded(items: seq<T>, rest: seq<TimeSeries>)

  /** The types whose metrics are a single number. */
  predicate Simple(mtype: MetricType) {
    mtype.COUNTER? || mtype.GAUGE? || mtype.UNTYPED?
  }

  function SimpleBody(mtype: MetricType, value: Double): Body
    requires Simple(mtype)
  {
    match mtype
    case COUNTER => CounterBody(value)
    case GAUGE => GaugeBody(value)
    case UNTYPED => UntypedBody(value)
  }

  function ValueOf(s: TimeSeries): Double { if s.samples == [] then Double(0) else s.samples[0].value }
  function TsOf(s: TimeSeries): int { if s.samples == [] then 0 else s.samples[0].timestampMs }
  function UserLabels(s: TimeSeries): seq<Label> { if s.labels == [] then [] else s.labels[1..] }
  function TagOf(s: TimeSeries): string { if s.labels == [] then "" else s.labels[|s.labels| - 1].value }

  /** `s` belongs to the metric whose sum series is `first`: right name, same timestamp. */
  predicate Belongs(s: TimeSeries, name: string, first: TimeSeries) {
    NameOf(s) == name && TsOf(s) == TsOf(first)
  }

  /** The bucket series in a row, the last one of which, the added `+Inf` bucket, is left in place. */
  function DecodeBuckets(rd: Reader, name: string, first: TimeSeries, series: seq<TimeSeries>): (d: Decoded<Bucket>)
    ensures |d.rest| <= |series|
  {
    if |series| < 2 || !Belongs(series[0], name + "_bucket", first) || !Belongs(series[1], name + "_bucket", first) then
      Decoded([], series)
    else
      var more := DecodeBuckets(rd, name, first, series[1..]);
      Decoded([Bucket(rd.parse(TagOf(series[0])), rd.toCount(ValueOf(series[0])))] + more.items, more.rest)
  }

  /** Quantiles as long as the series carry the bare family name. */
  function DecodeQuantiles(rd: Reader, name: string, first: TimeSeries, series: seq<TimeSeries>): (d: Decoded<Quantile>)
    ensures |d.rest| <= |series|
  {
    if series == [] || !Belongs(series[0], name, first) then Decoded([], series)
    else
      var more := DecodeQuantiles(rd, name, first, series[1..]);
      Decoded([Quantile(rd.parse(TagOf(series[0])), ValueOf(series[0]))] + more.items, more.rest)
  }

  /** The list starts with the `+Inf` bucket of the metric, and that repeats the count. */
  predicate EndsWithInf(series: seq<TimeSeries>, name: string, first: TimeSeries, count: TimeSeries) {
    && series != []
    && Belongs(series[0], name + "_bucket", first)
    && TagOf(series[0]) == PLUS_INF
    && ValueOf(series[0]) == ValueOf(count)
  }

  /** All metrics of one family off the front of the list; it stops at anything that does not fit. */
  function DecodeFamily(rd: Reader, name: string, mtype: MetricType, series: seq<TimeSeries>): Decoded<Content>
    decreases |series|
  {
    if Simple(mtype) && series != [] && NameOf(series[0]) == name then
      var s := series[0];
      var more := DecodeFamily(rd, name, mtype, series[1..]);
      Decoded([Content(UserLabels(s), TsOf(s), SimpleBody(mtype, ValueOf(s)))] + more.items, more.rest)
    else if HasDerivedNames(mtype) && |series| >= 2 && NameOf(series[0]) == name + "_sum" &&
            Belongs(series[1], name + "_count", series[0]) then
      var s := series[0];
      var count := rd.toCount(ValueOf(series[1]));
      if mtype.HISTOGRAM? then
        var bs := DecodeBuckets(rd, name, s, series[2..]);
        if EndsWithInf(bs.rest, name, s, series[1]) then
          var more := DecodeFamily(rd, name, mtype, bs.rest[1..]);
          var h := Histogram(ValueOf(s), count, bs.items);
          Decoded([Content(UserLabels(s), TsOf(s), HistogramBody(h))] + more.items, more.rest)
        else
          Decoded([], series)
      else
        var qs := DecodeQuantiles(rd, name, s, series[2..]);
        var more := DecodeFamily(rd, name, mtype, qs.rest);
        var body := SummaryBody(Summary(ValueOf(s), count, qs.items));
        Decoded([Content(UserLabels(s), TsOf(s), body)] + more.items, more.rest)
    else
      Decoded([], series)
  }

  datatype FamilyType = FamilyType(name: string, mtype: MetricType)

  /** The decoder: given names and types of the families, one list of contents per family. */
  function Decode(rd: Reader, schema: seq<FamilyType>, series: seq<TimeSeries>): seq<seq<Content>> {
    if schema == [] then []
    else
      var d := DecodeFamily(rd, schema[0].name, schema[0].mtype, series);
      [d.items] + Decode(rd, schema[1..], d.rest)
  }

  function Schema(fs: seq<MetricFamily>): seq<FamilyType> {
    if fs == [] then [] else [FamilyType(fs[0].name, fs[0].mtype)] + Schema(fs[1..])
  }

  function ContentOf(mtype: MetricType, m: Metric, ts: int): Content
    requires !mtype.GAUGE_HISTOGRAM?
  {
    Content(m.labels, ts,
            match mtype
            case COUNTER => CounterBody(m.counter)
            case GAUGE => GaugeBody(m.gauge)
            case UNTYPED => UntypedBody(m.untyped)
            case HISTOGRAM => HistogramBody(m.histogram)
            case SUMMARY => SummaryBody(m.summary))
  }

  /**
  What a family holds, of the types an encoder is for: counters, gauges, histograms, summaries, and for
  Go untyped.  A metric without a timestamp, or for Rust with timestamp zero, has the clock's.
  */
  function FamilyContents(enc: Encoder, mtype: MetricType, ms: seq<Metric>, now: int): seq<Content> {
    if ms == [] || mtype.GAUGE_HISTOGRAM? || (mtype.UNTYPED? && enc.Rust?) then []
    else
      var m := ms[0];
      var ts := if m.timestampMs == None || (enc.Rust? && m.timestampMs == Some(0)) then now else m.timestampMs.value;
      [ContentOf(mtype, m, ts)] + FamilyContents(enc, mtype, ms[1..], now)
  }

  function Contents(enc: Encoder, fs: seq<MetricFamily>, now: int): seq<seq<Content>> {
    if fs == [] then []
    else [FamilyContents(enc, fs[0].mtype, fs[0].metrics, now)] + Contents(enc, fs[1..], now)
  }

  // ---------------------------------------------------------------- the decoder undoes the encoder

  /** The numbers that become text or doubles come back. */
  predicate ReadableBuckets(num: Numbers, rd: Reader, bs: seq<Bucket>) {
    forall i :: 0 <= i < |bs| ==>
      && rd.parse(num.format(bs[i].upperBound)) == bs[i].upperBound
      && rd.toCount(num.ofCount(bs[i].cumulativeCount)) == bs[i].cumulativeCount
  }

  predicate ReadableQuantiles(num: Numbers, rd: Reader, qs: seq<Quantile>) {
    forall i :: 0 <= i < |qs| ==> rd.parse(num.format(qs[i].quantile)) == qs[i].quantile
  }

  predicate Readable(num: Numbers, rd: Reader, mtype: MetricType, m: Metric) {
    match mtype
    case HISTOGRAM =>
      ReadableBuckets(num, rd, m.histogram.buckets) && rd.toCount(num.ofCount(m.histogram.count)) == m.histogram.count
    case SUMMARY =>
      ReadableQuantiles(num, rd, m.summary.quantiles) && rd.toCount(num.ofCount(m.summary.count)) == m.summary.count
    case _ => true
  }

  predicate AllReadable(num: Numbers, rd: Reader, mtype: MetricType, ms: seq<Metric>) {
    forall i :: 0 <= i < |ms| ==> Readable(num, rd, mtype, ms[i])
  }

  /** The four things the decoder reads off a tagged series. */
  lemma TaggedFields(name: string, labels: seq<Label>, tag: string, text: string, value: Double, ts: int)
    ensures
      var s := One(Tagged(name, labels, tag, text), value, ts);
      NameOf(s) == name && TagOf(s) == text && ValueOf(s) == value && TsOf(s) == ts
  {
  }

  lemma NamedFields(name: string, labels: seq<Label>, value: Double, ts: int)
    ensures
      var s := One(Named(name, labels), value, ts);
      NameOf(s) == name && UserLabels(s) == labels && ValueOf(s) == value && TsOf(s) == ts
  {
  }

  lemma Regroup(x: TimeSeries, a: seq<TimeSeries>, b: seq<TimeSeries>)
    ensures [x] + a + b == [x] + (a + b)
    ensures ([x] + (a + b))[1..] == a + b
  {
  }

  lemma Assoc3(a: seq<TimeSeries>, b: seq<TimeSeries>, c: seq<TimeSeries>)
    ensures a + b + c == a + (b + c)
  {
  }

  lemma Assoc4(a: seq<TimeSeries>, b: seq<TimeSeries>, c: seq<TimeSeries>, d: seq<TimeSeries>)
    ensures a + b + c + d == a + (b + (c + d))
  {
  }

  lemma {:induction false} DecodeBucketsCons(rd: Reader, name: string, first: TimeSeries, x: TimeSeries, b: Bucket,
                                             rest: seq<TimeSeries>)
    requires Belongs(x, name + "_bucket", first) && rest != [] && Belongs(rest[0], name + "_bucket", first)
    requires b == Bucket(rd.parse(TagOf(x)), rd.toCount(ValueOf(x)))
    ensures
      var more := DecodeBuckets(rd, name, first, rest);
      DecodeBuckets(rd, name, first, [x] + rest) == Decoded([b] + more.items, more.rest)
  {
    assert ([x] + rest)[1..] == rest;
  }

  lemma {:induction false} DecodeQuantilesCons(rd: Reader, name: string, first: TimeSeries, x: TimeSeries, q: Quantile,
                                               rest: seq<TimeSeries>)
    requires Belongs(x, name, first) && q == Quantile(rd.parse(TagOf(x)), ValueOf(x))
    ensures
      var more := DecodeQuantiles(rd, name, first, rest);
      DecodeQuantiles(rd, name, first, [x] + rest) == Decoded([q] + more.items, more.rest)
  {
    assert ([x] + rest)[1..] == rest;
  }

  lemma {:induction false} BucketsComeBack(num: Numbers, rd: Reader, name: string, labels: seq<Label>, bs: seq<Bucket>,
                                           first: TimeSeries, inf: TimeSeries, rest: seq<TimeSeries>)
    requires ReadableBuckets(num, rd, bs) && Belongs(inf, name + "_bucket", first)
    requires Leaves(rest, {name + "_bucket"})
    ensures DecodeBuckets(rd, name, first, BucketSeries(num, name, labels, bs, TsOf(first)) + ([inf] + rest)) ==
      Decoded(bs, [inf] + rest)
  {
    var ts := TsOf(first);
    if bs == [] {
      assert BucketSeries(num, name, labels, bs, ts) + ([inf] + rest) == [inf] + rest;
      assert rest != [] ==> ([inf] + rest)[1] == rest[0];
    } else {
      var text := num.format(bs[0].upperBound);
      var x := One(Tagged(name + "_bucket", labels, LE, text), num.ofCount(bs[0].cumulativeCount), ts);
      var tail := BucketSeries(num, name, labels, bs[1..], ts);
      TaggedFields(name + "_bucket", labels, LE, text, num.ofCount(bs[0].cumulativeCount), ts);
      BucketsComeBack(num, rd, name, labels, bs[1..], first, inf, rest);
      Regroup(x, tail, [inf] + rest);
      DecodeBucketsCons(rd, name, first, x, bs[0], tail + ([inf] + rest));
      assert bs == [bs[0]] + bs[1..];
    }
  }

  lemma {:induction false} QuantilesComeBack(num: Numbers, rd: Reader, name: string, labels: seq<Label>,
                                             qs: seq<Quantile>, first: TimeSeries, rest: seq<TimeSeries>)
    requires ReadableQuantiles(num, rd, qs) && Leaves(rest, {name})
    ensures DecodeQuantiles(rd, name, first, QuantileSeries(num, name, labels, qs, TsOf(first)) + rest) ==
      Decoded(qs, rest)
  {
    var ts := TsOf(first);
    if qs == [] {
      assert QuantileSeries(num, name, labels, qs, ts) + rest == rest;
    } else {
      var text := num.format(qs[0].quantile);
      var x := One(Tagged(name, labels, QUANTILE, text), qs[0].value, ts);
      var tail := QuantileSeries(num, name, labels, qs[1..], ts);
      TaggedFields(name, labels, QUANTILE, text, qs[0].value, ts);
      QuantilesComeBack(num, rd, name, labels, qs[1..], first, rest);
      Regroup(x, tail, rest);
      DecodeQuantilesCons(rd, name, first, x, qs[0], tail + rest);
      assert qs == [qs[0]] + qs[1..];
    }
  }

  /** One simple metric off the front. */
  lemma {:induction false} DecodeSimple(rd: Reader, name: string, mtype: MetricType, x: TimeSeries,
                                        rest: seq<TimeSeries>)
    requires Simple(mtype) && NameOf(x) == name
    ensures
      var more := DecodeFamily(rd, name, mtype, rest);
      DecodeFamily(rd, name, mtype, [x] + rest) ==
        Decoded([Content(UserLabels(x), TsOf(x), SimpleBody(mtype, ValueOf(x)))] + more.items, more.rest)
  {
    assert ([x] + rest)[1..] == rest;
  }

  /** One histogram off the front. */
  lemma {:induction false} DecodeHistogram(rd: Reader, name: string, x: TimeSeries, y: TimeSeries,
                                           body: seq<TimeSeries>, bs: seq<Bucket>, inf: TimeSeries,
                                           rest: seq<TimeSeries>)
    requires NameOf(x) == name + "_sum" && Belongs(y, name + "_count", x)
    requires DecodeBuckets(rd, name, x, body) == Decoded(bs, [inf] + rest)
    requires Belongs(inf, name + "_bucket", x) && TagOf(inf) == PLUS_INF && ValueOf(inf) == ValueOf(y)
    ensures
      var more := DecodeFamily(rd, name, HISTOGRAM, rest);
      var h := Histogram(ValueOf(x), rd.toCount(ValueOf(y)), bs);
      DecodeFamily(rd, name, HISTOGRAM, [x, y] + body) ==
        Decoded([Content(UserLabels(x), TsOf(x), HistogramBody(h))] + more.items, more.rest)
  {
    assert ([x, y] + body)[2..] == body && ([inf] + rest)[1..] == rest;
  }

  /** One summary off the front. */
  lemma {:induction false} DecodeSummary(rd: Reader, name: string, x: TimeSeries, y: TimeSeries, body: seq<TimeSeries>,
                                         qs: seq<Quantile>, rest: seq<TimeSeries>)
    requires NameOf(x) == name + "_sum" && Belongs(y, name + "_count", x)
    requires DecodeQuantiles(rd, name, x, body) == Decoded(qs, rest)
    ensures
      var more := DecodeFamily(rd, name, SUMMARY, rest);
      var s := Summary(ValueOf(x), rd.toCount(ValueOf(y)), qs);
      DecodeFamily(rd, name, SUMMARY, [x, y] + body) ==
        Decoded([Content(UserLabels(x), TsOf(x), SummaryBody(s))] + more.items, more.rest)
  {
    assert ([x, y] + body)[2..] == body;
  }

  lemma {:induction false} HistogramComesBack(num: Numbers, rd: Reader, name: string, m: Metric, ts: int,
                                              rest: seq<TimeSeries>)
    requires Readable(num, rd, HISTOGRAM, m) && Leaves(rest, {name + "_bucket"})
    ensures
      var more := DecodeFamily(rd, name, HISTOGRAM, rest);
      DecodeFamily(rd, name, HISTOGRAM, HistogramSeries(num, name, m.labels, m.histogram, ts) + rest) ==
        Decoded([ContentOf(HISTOGRAM, m, ts)] + more.items, more.rest)
  {
    var h := m.histogram;
    var inf := InfBucket(num, name, m.labels, h, ts);
    var head := SumAndCount(num, name, m.labels, h.sum, h.count, ts);
    var body := BucketSeries(num, name, m.labels, h.buckets, ts);
    TaggedFields(name + "_bucket", m.labels, LE, PLUS_INF, num.ofCount(h.count), ts);
    NamedFields(name + "_sum", m.labels, h.sum, ts);
    NamedFields(name + "_count", m.labels, num.ofCount(h.count), ts);
    BucketsComeBack(num, rd, name, m.labels, h.buckets, head[0], inf, rest);
    DecodeHistogram(rd, name, head[0], head[1], body + ([inf] + rest), h.buckets, inf, rest);
    Assoc4(head, body, [inf], rest);
    assert head == [head[0], head[1]];
  }

  lemma {:induction false} SummaryComesBack(num: Numbers, rd: Reader, name: string, m: Metric, ts: int,
                                            rest: seq<TimeSeries>)
    requires Readable(num, rd, SUMMARY, m) && Leaves(rest, {name})
    ensures
      var more := DecodeFamily(rd, name, SUMMARY, rest);
      DecodeFamily(rd, name, SUMMARY, SummarySeries(num, name, m.labels, m.summary, ts) + rest) ==
        Decoded([ContentOf(SUMMARY, m, ts)] + more.items, more.rest)
  {
    var s := m.summary;
    var head := SumAndCount(num, name, m.labels, s.sum, s.count, ts);
    var body := QuantileSeries(num, name, m.labels, s.quantiles, ts);
    NamedFields(name + "_sum", m.labels, s.sum, ts);
    NamedFields(name + "_count", m.labels, num.ofCount(s.count), ts);
    QuantilesComeBack(num, rd, name, m.labels, s.quantiles, head[0], rest);
    DecodeSummary(rd, name, head[0], head[1], body + rest, s.quantiles, rest);
    Assoc3(head, body, rest);
    assert head == [head[0], head[1]];
  }

  /** What the decoder makes of the series of one metric followed by anything that leaves the family. */
  lemma {:induction false} MetricComesBack(num: Numbers, rd: Reader, name: string, mtype: MetricType, m: Metric,
                                           ts: int, rest: seq<TimeSeries>)
    requires !mtype.GAUGE_HISTOGRAM? && Readable(num, rd, mtype, m)
    requires HasDerivedNames(mtype) ==> Leaves(rest, {TaggedName(name, mtype)})
    ensures
      var more := DecodeFamily(rd, name, mtype, rest);
      DecodeFamily(rd, name, mtype, SeriesOf(num, name, mtype, m, ts) + rest) ==
        Decoded([ContentOf(mtype, m, ts)] + more.items, more.rest)
  {
    match mtype
    case COUNTER =>
      NamedFields(name, m.labels, m.counter, ts);
      DecodeSimple(rd, name, mtype, One(Named(name, m.labels), m.counter, ts), rest);
    case GAUGE =>
      NamedFields(name, m.labels, m.gauge, ts);
      DecodeSimple(rd, name, mtype, One(Named(name, m.labels), m.gauge, ts), rest);
    case UNTYPED =>
      NamedFields(name, m.labels, m.untyped, ts);
      DecodeSimple(rd, name, mtype, One(Named(name, m.labels), m.untyped, ts), rest);
    case HISTOGRAM => HistogramComesBack(num, rd, name, m, ts, rest);
    case SUMMARY => SummaryComesBack(num, rd, name, m, ts, rest);
  }

  /** Buckets and quantiles end where the next metric, which starts with its sum, begins. */
  lemma {:induction false} NextMetricLeaves(enc: Encoder, num: Numbers, name: string, mtype: MetricType,
                                            ms: seq<Metric>, now: int, rest: seq<TimeSeries>)
    requires HasDerivedNames(mtype) && Leaves(rest, SeriesNames(name, mtype))
    ensures Leaves(FamilySeries(enc, num, name, mtype, ms, now) + rest, {TaggedName(name, mtype)})
  {
    if ms == [] {
      assert FamilySeries(enc, num, name, mtype, ms, now) + rest == rest;
    } else {
      var sum := if mtype.HISTOGRAM? then ms[0].histogram.sum else ms[0].summary.sum;
      assert (FamilySeries(enc, num, name, mtype, ms, now) + rest)[0] ==
        One(Named(name + "_sum", ms[0].labels), sum, Timestamp(enc, ms[0], now));
      assert |name + "_sum"| != |name|;
      SuffixesDiffer(name, name);
    }
  }

  lemma {:induction false} DecodeStops(rd: Reader, name: string, mtype: MetricType, rest: seq<TimeSeries>)
    requires Leaves(rest, SeriesNames(name, mtype))
    ensures DecodeFamily(rd, name, mtype, rest) == Decoded([], rest)
  {
  }

  lemma {:induction false} Unsupported(enc: Encoder, num: Numbers, name: string, mtype: MetricType, ms: seq<Metric>,
                                       now: int)
    requires !Supported(enc, mtype)
    ensures FamilySeries(enc, num, name, mtype, ms, now) == []
  {
    if ms == [] {
    } else {
      Unsupported(enc, num, name, mtype, ms[1..], now);
    }
  }

  lemma {:induction false} FamilyComesBack(enc: Encoder, num: Numbers, rd: Reader, name: string, mtype: MetricType,
                                           ms: seq<Metric>, now: int, rest: seq<TimeSeries>)
    requires AllReadable(num, rd, mtype, ms) && Leaves(rest, SeriesNames(name, mtype))
    ensures DecodeFamily(rd, name, mtype, FamilySeries(enc, num, name, mtype, ms, now) + rest) ==
      Decoded(FamilyContents(enc, mtype, ms, now), rest)
  {
    if ms == [] || !Supported(enc, mtype) {
      if ms != [] { Unsupported(enc, num, name, mtype, ms, now); }
      assert FamilySeries(enc, num, name, mtype, ms, now) + rest == rest;
      DecodeStops(rd, name, mtype, rest);
    } else {
      FamilyComesBack(enc, num, rd, name, mtype, ms[1..], now, rest);
      FamilyStep(enc, num, rd, name, mtype, ms, now, rest);
    }
  }

  lemma {:induction false} FamilyStep(enc: Encoder, num: Numbers, rd: Reader, name: string, mtype: MetricType,
                                      ms: seq<Metric>, now: int, rest: seq<TimeSeries>)
    requires ms != [] && Supported(enc, mtype) && Readable(num, rd, mtype, ms[0])
    requires Leaves(rest, SeriesNames(name, mtype))
    requires DecodeFamily(rd, name, mtype, FamilySeries(enc, num, name, mtype, ms[1..], now) + rest) ==
      Decoded(FamilyContents(enc, mtype, ms[1..], now), rest)
    ensures DecodeFamily(rd, name, mtype, FamilySeries(enc, num, name, mtype, ms, now) + rest) ==
      Decoded(FamilyContents(enc, mtype, ms, now), rest)
  {
    if HasDerivedNames(mtype) { NextMetricLeaves(enc, num, name, mtype, ms[1..], now, rest); }
    var ts, later := Timestamp(enc, ms[0], now), FamilySeries(enc, num, name, mtype, ms[1..], now);
    MetricComesBack(num, rd, name, mtype, ms[0], ts, later + rest);
    Assoc3(SeriesOf(num, name, mtype, ms[0], ts), later, rest);
  }

  /** The first series of a list of families carries a name of one of them. */
  lemma {:induction false} FirstName(enc: Encoder, num: Numbers, fs: seq<MetricFamily>, now: int) returns (i: nat)
    requires Flatten(enc, num, fs, now) != []
    ensures i < |fs| && NameOf(Flatten(enc, num, fs, now)[0]) in SeriesNames(fs[i].name, fs[i].mtype)
  {
    var f := fs[0];
    var head := FamilySeries(enc, num, f.name, f.mtype, f.metrics, now);
    if head == [] {
      assert Flatten(enc, num, fs, now) == Flatten(enc, num, fs[1..], now);
      i := FirstName(enc, num, fs[1..], now);
      i := i + 1;
    } else {
      FirstNameOfFamily(enc, num, f.name, f.mtype, f.metrics, now);
      i := 0;
    }
  }

  lemma {:induction false} FirstNameOfFamily(enc: Encoder, num: Numbers, name: string, mtype: MetricType,
                                             ms: seq<Metric>, now: int)
    requires FamilySeries(enc, num, name, mtype, ms, now) != []
    ensures NameOf(FamilySeries(enc, num, name, mtype, ms, now)[0]) in SeriesNames(name, mtype)
  {
    if !Supported(enc, mtype) {
      FirstNameOfFamily(enc, num, name, mtype, ms[1..], now);
    }
  }

  ghost predicate FamiliesReadable(num: Numbers, rd: Reader, fs: seq<MetricFamily>) {
    forall i :: 0 <= i < |fs| ==> AllReadable(num, rd, fs[i].mtype, fs[i].metrics)
  }

  lemma {:induction false} RestLeaves(enc: Encoder, num: Numbers, fs: seq<MetricFamily>, now: int)
    requires fs != [] && NamesApart(fs)
    ensures Leaves(Flatten(enc, num, fs[1..], now), SeriesNames(fs[0].name, fs[0].mtype))
  {
    if Flatten(enc, num, fs[1..], now) != [] {
      var i := FirstName(enc, num, fs[1..], now);
      assert fs[1..][i] == fs[i + 1];
    }
  }

  /**
  Lossless flattening.  Whatever the families, as long as no two of them emit series of the same name, the
  decoder recovers from the flat series of either encoder every metric of the types it supports, with
  label list and effective timestamp, in order.
  */
  lemma {:induction false} FlatteningIsLossless(enc: Encoder, num: Numbers, rd: Reader, fs: seq<MetricFamily>, now: int)
    requires NamesApart(fs) && FamiliesReadable(num, rd, fs)
    ensures Decode(rd, Schema(fs), Flatten(enc, num, fs, now)) == Contents(enc, fs, now)
  {
    if fs == [] {
    } else {
      var f := fs[0];
      RestLeaves(enc, num, fs, now);
      FamilyComesBack(enc, num, rd, f.name, f.mtype, f.metrics, now, Flatten(enc, num, fs[1..], now));
      FlatteningIsLossless(enc, num, rd, fs[1..], now);
      assert Schema(fs)[1..] == Schema(fs[1..]);
    }
  }

  /** The same of what the Go encoder returns, whenever it succeeds. */
  lemma {:induction false} GoFlatteningIsLossless(num: Numbers, rd: Reader, gs: seq<Option<MetricFamily>>, now: int)
    requires NamesApart(Present(gs)) && FamiliesReadable(num, rd, Present(gs)) && GoFlatten(num, gs, now).Some?
    ensures Decode(rd, Schema(Present(gs)), GoFlatten(num, gs, now).value) == Contents(Go, Present(gs), now)
  {
    GoFlattens(num, gs, now);
    FlatteningIsLossless(Go, num, rd, Present(gs), now);
  }

  /** A summary `a` and counters named like its sum and its count. */
  function ThreeNames(a: string, ms: seq<Metric>, sums: seq<Metric>, counts: seq<Metric>): seq<MetricFamily> {
    [MetricFamily(a, SUMMARY, ms), MetricFamily(a + "_sum", COUNTER, sums), MetricFamily(a + "_count", COUNTER, counts)]
  }

  /**
  The condition on names is needed: a summary `a` next to counters `a_sum` and `a_count` flattens to
  the same series as those counters alone, for every value and every label list.
  */
  lemma {:induction false} NameCollisionLosesData(enc: Encoder, num: Numbers, a: string, m: Metric, c1: Metric,
                                                  c2: Metric, now: int)
    requires m.summary.quantiles == [] && c1.labels == c2.labels == m.labels
    requires c1.timestampMs == c2.timestampMs == m.timestampMs
    requires c1.counter == m.summary.sum && c2.counter == num.ofCount(m.summary.count)
    ensures
      var asSummary := ThreeNames(a, [m], [], []);
      var asCounters := ThreeNames(a, [], [c1], [c2]);
      && Schema(asSummary) == Schema(asCounters)
      && Contents(enc, asSummary, now) != Contents(enc, asCounters, now)
      && Flatten(enc, num, asSummary, now) == Flatten(enc, num, asCounters, now)
  {
    var e1, e2 := MetricFamily(a + "_sum", COUNTER, []), MetricFamily(a + "_count", COUNTER, []);
    var s1, s2 := MetricFamily(a + "_sum", COUNTER, [c1]), MetricFamily(a + "_count", COUNTER, [c2]);
    var full, none := MetricFamily(a, SUMMARY, [m]), MetricFamily(a, SUMMARY, []);
    ThreeFamilies(enc, num, full, e1, e2, now);
    ThreeFamilies(enc, num, none, s1, s2, now);
    assert [m][1..] == [] && [c1][1..] == [] && [c2][1..] == [];
  }

  lemma {:induction false} ThreeFamilies(enc: Encoder, num: Numbers, f: MetricFamily, g: MetricFamily, h: MetricFamily,
                                         now: int)
    ensures Schema([f, g, h]) == [FamilyType(f.name, f.mtype), FamilyType(g.name, g.mtype), FamilyType(h.name, h.mtype)]
    ensures Contents(enc, [f, g, h], now)[0] == FamilyContents(enc, f.mtype, f.metrics, now)
    ensures Flatten(enc, num, [f, g, h], now) ==
      FamilySeries(enc, num, f.name, f.mtype, f.metrics, now) +
      FamilySeries(enc, num, g.name, g.mtype, g.metrics, now) +
      FamilySeries(enc, num, h.name, h.mtype, h.metrics, now)
  {
    assert [f, g, h][1..] == [g, h] && [g, h][1..] == [h] && [h][1..] == [];
    assert Schema([h]) == [FamilyType(h.name, h.mtype)];
    assert Flatten(enc, num, [h], now) == FamilySeries(enc, num, h.name, h.mtype, h.metrics, now);
  }
}
