/**
Exactly when the Go and the Rust encoder produce the same series: on families of the four types both
support, whose timestamps are absent or nonzero (or where the clock itself reads zero).
*/
module MetricsAgreement {
  import opened Common
  import opened Metrics
  import opened MetricsDecode
  import opened MetricsSeries

  /** The two encoders treat this metric alike. */
  predicate Alike(mtype: MetricType, m: Metric, now: int) {
    mtype in {COUNTER, GAUGE, HISTOGRAM, SUMMARY} && (m.timestampMs != Some(0) || now == 0)
  }

  predicate AllAlike(mtype: MetricType, ms: seq<Metric>, now: int) {
    forall i :: 0 <= i < |ms| ==> Alike(mtype, ms[i], now)
  }

  lemma SplitEqual(a: seq<TimeSeries>, b: seq<TimeSeries>, c: seq<TimeSeries>, d: seq<TimeSeries>)
    requires |a| >= |b| && |c| >= |d|
    ensures a + c == b + d <==> a == b && c == d
  {
    if a + c == b + d {
      assert |a + c| == |b + d|;
      assert (a + c)[..|a|] == a && (b + d)[..|a|] == b;
      assert (a + c)[|a|..] == c && (b + d)[|a|..] == d;
    }
  }

  /** The number of series of a metric does not depend on the timestamp, but the first series shows it. */
  lemma TimestampShows(num: Numbers, name: string, mtype: MetricType, m: Metric, t1: int, t2: int)
    requires !mtype.GAUGE_HISTOGRAM?
    ensures |SeriesOf(num, name, mtype, m, t1)| == |SeriesOf(num, name, mtype, m, t2)|
    ensures SeriesOf(num, name, mtype, m, t1) == SeriesOf(num, name, mtype, m, t2) <==> t1 == t2
  {
    BucketAt(num, name, m.labels, m.histogram.buckets, t1, 0);
    BucketAt(num, name, m.labels, m.histogram.buckets, t2, 0);
    QuantileAt(num, name, m.labels, m.summary.quantiles, t1, 0);
    QuantileAt(num, name, m.labels, m.summary.quantiles, t2, 0);
    assert TsOf(SeriesOf(num, name, mtype, m, t1)[0]) == t1;
    assert TsOf(SeriesOf(num, name, mtype, m, t2)[0]) == t2;
  }

  lemma MetricAgreement(num: Numbers, name: string, mtype: MetricType, m: Metric, now: int)
    requires !mtype.GAUGE_HISTOGRAM?
    ensures |MetricSeries(Go, num, name, mtype, m, now)| >= |MetricSeries(Rust, num, name, mtype, m, now)|
    ensures MetricSeries(Go, num, name, mtype, m, now) == MetricSeries(Rust, num, name, mtype, m, now) <==>
      Alike(mtype, m, now)
  {
    TimestampShows(num, name, mtype, m, Timestamp(Go, m, now), Timestamp(Rust, m, now));
  }

  lemma {:induction false} FamilyAgreement(num: Numbers, name: string, mtype: MetricType, ms: seq<Metric>, now: int)
    requires !mtype.GAUGE_HISTOGRAM?
    ensures |FamilySeries(Go, num, name, mtype, ms, now)| >= |FamilySeries(Rust, num, name, mtype, ms, now)|
    ensures FamilySeries(Go, num, name, mtype, ms, now) == FamilySeries(Rust, num, name, mtype, ms, now) <==>
      AllAlike(mtype, ms, now)
  {
    if ms == [] {
    } else {
      MetricAgreement(num, name, mtype, ms[0], now);
      FamilyAgreement(num, name, mtype, ms[1..], now);
      SplitEqual(MetricSeries(Go, num, name, mtype, ms[0], now), MetricSeries(Rust, num, name, mtype, ms[0], now),
                 FamilySeries(Go, num, name, mtype, ms[1..], now), FamilySeries(Rust, num, name, mtype, ms[1..], now));
      assert AllAlike(mtype, ms, now) <==> Alike(mtype, ms[0], now) && AllAlike(mtype, ms[1..], now) by {
        assert ms == [ms[0]] + ms[1..];
      }
    }
  }

  ghost predicate FamiliesAlike(fs: seq<MetricFamily>, now: int) {
    forall i :: 0 <= i < |fs| ==> AllAlike(fs[i].mtype, fs[i].metrics, now)
  }

  lemma FamiliesAlikeCons(f: MetricFamily, fs: seq<MetricFamily>, now: int)
    ensures FamiliesAlike([f] + fs, now) <==> AllAlike(f.mtype, f.metrics, now) && FamiliesAlike(fs, now)
  {
    var all := [f] + fs;
    if FamiliesAlike(all, now) {
      assert all[0] == f;
      forall i | 0 <= i < |fs| ensures AllAlike(fs[i].mtype, fs[i].metrics, now) { assert all[i + 1] == fs[i]; }
    }
  }

  /** What agreement says of the tail of a list of families. */
  ghost predicate Agreement(num: Numbers, gs: seq<Option<MetricFamily>>, now: int) {
    var go, rust := GoFlatten(num, gs, now), Flatten(Rust, num, Present(gs), now);
    && (go.Some? ==> |go.value| >= |rust|)
    && (go == Some(rust) <==> FamiliesAlike(Present(gs), now))
  }

  /**
  Flattening agreement.  For the same clock value and number formatting the Go encoder succeeds with
  exactly the series of the Rust encoder if and only if every metric is of a counter, gauge,
  histogram or summary family and its timestamp is absent or nonzero, unless the clock reads zero.
  */
  lemma {:induction false} EncodersAgreeExactly(num: Numbers, gs: seq<Option<MetricFamily>>, now: int)
    ensures GoFlatten(num, gs, now).Some? ==>
      |GoFlatten(num, gs, now).value| >= |Flatten(Rust, num, Present(gs), now)|
    ensures GoFlatten(num, gs, now) == Some(Flatten(Rust, num, Present(gs), now)) <==>
      FamiliesAlike(Present(gs), now)
  {
    AgreementHolds(num, gs, now);
  }

  lemma {:induction false} AgreementHolds(num: Numbers, gs: seq<Option<MetricFamily>>, now: int)
    ensures Agreement(num, gs, now)
  {
    if gs == [] {
    } else if gs[0].None? {
      AgreementHolds(num, gs[1..], now);
      assert Present(gs) == Present(gs[1..]);
    } else {
      AgreementHolds(num, gs[1..], now);
      AgreementStep(num, gs[0].value, gs, now);
    }
  }

  lemma AgreementStep(num: Numbers, f: MetricFamily, gs: seq<Option<MetricFamily>>, now: int)
    requires gs != [] && gs[0] == Some(f) && Agreement(num, gs[1..], now)
    ensures Agreement(num, gs, now)
  {
    var rest := Present(gs[1..]);
    FamiliesAlikeCons(f, rest, now);
    assert ([f] + rest)[1..] == rest;
    var rust := FamilySeries(Rust, num, f.name, f.mtype, f.metrics, now);
    assert Flatten(Rust, num, Present(gs), now) == rust + Flatten(Rust, num, rest, now);
    if f.mtype.GAUGE_HISTOGRAM? {
      if f.metrics != [] { assert !Alike(f.mtype, f.metrics[0], now); }
    } else {
      FamilyAgreement(num, f.name, f.mtype, f.metrics, now);
    }
    if !GoRejects(f) && GoFlatten(num, gs[1..], now).Some? {
      SplitEqual(FamilySeries(Go, num, f.name, f.mtype, f.metrics, now), rust,
                 GoFlatten(num, gs[1..], now).value, Flatten(Rust, num, rest, now));
    }
  }
}
