/**
Which names and types lose data.  Flattening is injective on the inputs of a schema unless a summary is
mimicked: unless a single-number family named like its sum comes before one named like its count.
*/
module MetricsLossless {
  import opened Common
  import opened Metrics
  import opened MetricsDecode
  import opened MetricsSeries

  predicate DistinctNames(schema: seq<FamilyType>) {
    forall i, j :: 0 <= i < j < |schema| ==> schema[i].name != schema[j].name
  }

  /** The families at `i` and `j` can together produce what the summary at `p` does. */
  predicate Mimics(enc: Encoder, schema: seq<FamilyType>, p: nat, i: nat, j: nat) {
    && p < |schema| && schema[p].mtype.SUMMARY?
    && i < j < |schema|
    && EmitsPlain(enc, schema[i], schema[p].name + "_sum")
    && EmitsPlain(enc, schema[j], schema[p].name + "_count")
  }

  /** A counter or gauge family of this name, or for Go an untyped one. */
  predicate EmitsPlain(enc: Encoder, f: FamilyType, name: string) {
    (f.mtype in {COUNTER, GAUGE} || (f.mtype == UNTYPED && enc == Go)) && f.name == name
  }

  ghost predicate Mimicked(enc: Encoder, schema: seq<FamilyType>) {
    exists p: nat, i: nat, j: nat :: Mimics(enc, schema, p, i, j)
  }

  lemma {:induction false} SchemaAt(fs: seq<MetricFamily>)
    ensures |Schema(fs)| == |fs|
    ensures forall i :: 0 <= i < |fs| ==> Schema(fs)[i] == FamilyType(fs[i].name, fs[i].mtype)
  {
    if fs == [] {
    } else {
      SchemaAt(fs[1..]);
    }
  }

  // ---------------------------------------------------------------- where a series can stand

  predicate HasTag(s: TimeSeries) {
    s.labels != [] && (s.labels[|s.labels| - 1].name == LE || s.labels[|s.labels| - 1].name == QUANTILE)
  }

  predicate AllNamed(series: seq<TimeSeries>, name: string) {
    forall k :: 0 <= k < |series| ==> NameOf(series[k]) == name && !HasTag(series[k])
  }

  lemma PlainHasNoTag(s: TimeSeries, name: string, labels: seq<Label>)
    requires s.labels == Named(name, labels) && GoodUserLabels(labels)
    ensures NameOf(s) == name && !HasTag(s)
  {
  }

  ghost predicate WellLabelled(ms: seq<Metric>) {
    forall k :: 0 <= k < |ms| ==> GoodUserLabels(ms[k].labels)
  }

  /** A supported single-number family emits one plain series a metric. */
  lemma {:induction false} SimpleFamily(enc: Encoder, num: Numbers, name: string, mtype: MetricType, ms: seq<Metric>,
                                        now: int)
    requires Simple(mtype) && WellLabelled(ms)
    ensures AllNamed(FamilySeries(enc, num, name, mtype, ms, now), name)
  {
    if ms == [] {
    } else {
      SimpleFamily(enc, num, name, mtype, ms[1..], now);
      if Supported(enc, mtype) {
        PlainHasNoTag(SeriesOf(num, name, mtype, ms[0], Timestamp(enc, ms[0], now))[0], name, ms[0].labels);
      }
    }
  }

  /** In a histogram or summary family a sum is followed by a count and a count preceded by a sum. */
  ghost predicate HeadsInPairs(series: seq<TimeSeries>, name: string, mtype: MetricType) {
    && (forall k :: 0 <= k < |series| && NameOf(series[k]) == name + "_sum" ==>
          k + 1 < |series| && NameOf(series[k + 1]) == name + "_count")
    && (forall k :: 0 <= k < |series| && NameOf(series[k]) == name + "_count" ==>
          k > 0 && NameOf(series[k - 1]) == name + "_sum")
    && (mtype.HISTOGRAM? ==> forall k :: 0 <= k < |series| && NameOf(series[k]) == name + "_count" ==>
          k + 1 < |series| && HasTag(series[k + 1]))
  }

  lemma MetricHeads(num: Numbers, name: string, mtype: MetricType, m: Metric, ts: int)
    requires HasDerivedNames(mtype)
    ensures HeadsInPairs(SeriesOf(num, name, mtype, m, ts), name, mtype)
    ensures NameOf(SeriesOf(num, name, mtype, m, ts)[0]) == name + "_sum"
  {
    var series := SeriesOf(num, name, mtype, m, ts);
    SuffixesDiffer(name, name);
    assert |name| != |name + "_sum"| && |name| != |name + "_count"|;
    assert NameOf(series[0]) == name + "_sum" && NameOf(series[1]) == name + "_count";
    forall k | 2 <= k < |series| ensures NameOf(series[k]) == TaggedName(name, mtype) && HasTag(series[k]) {
      TaggedFrom(num, name, mtype, m, ts, k);
    }
  }

  /** After sum and count every series of a histogram or summary carries an extra label. */
  lemma TaggedFrom(num: Numbers, name: string, mtype: MetricType, m: Metric, ts: int, k: nat)
    requires HasDerivedNames(mtype) && 2 <= k < |SeriesOf(num, name, mtype, m, ts)|
    ensures NameOf(SeriesOf(num, name, mtype, m, ts)[k]) == TaggedName(name, mtype)
    ensures HasTag(SeriesOf(num, name, mtype, m, ts)[k])
  {
    if mtype.HISTOGRAM? {
      BucketAt(num, name, m.labels, m.histogram.buckets, ts, k - 2);
    } else {
      QuantileAt(num, name, m.labels, m.summary.quantiles, ts, k - 2);
    }
  }

  lemma HeadsAppend(a: seq<TimeSeries>, b: seq<TimeSeries>, name: string, mtype: MetricType)
    requires HeadsInPairs(a, name, mtype) && HeadsInPairs(b, name, mtype)
    ensures HeadsInPairs(a + b, name, mtype)
  {
    var c := a + b;
    forall k | 0 <= k < |c| && NameOf(c[k]) == name + "_sum"
      ensures k + 1 < |c| && NameOf(c[k + 1]) == name + "_count"
    {
      if k < |a| { assert c[k] == a[k] && c[k + 1] == a[k + 1]; } else { assert c[k] == b[k - |a|]; }
    }
    forall k | 0 <= k < |c| && NameOf(c[k]) == name + "_count"
      ensures k > 0 && NameOf(c[k - 1]) == name + "_sum" && (mtype.HISTOGRAM? ==> k + 1 < |c| && HasTag(c[k + 1]))
    {
      if k < |a| { assert c[k] == a[k] && c[k - 1] == a[k - 1]; } else { assert c[k] == b[k - |a|]; }
    }
  }

  lemma {:induction false} FamilyHeads(enc: Encoder, num: Numbers, name: string, mtype: MetricType, ms: seq<Metric>,
                                       now: int)
    requires HasDerivedNames(mtype)
    ensures HeadsInPairs(FamilySeries(enc, num, name, mtype, ms, now), name, mtype)
  {
    if ms == [] {
    } else {
      FamilyHeads(enc, num, name, mtype, ms[1..], now);
      MetricHeads(num, name, mtype, ms[0], Timestamp(enc, ms[0], now));
      HeadsAppend(MetricSeries(enc, num, name, mtype, ms[0], now), FamilySeries(enc, num, name, mtype, ms[1..], now),
                  name, mtype);
    }
  }

  /** The first series of a family is plain and carries its first name. */
  lemma {:induction false} FirstOfFamily(enc: Encoder, num: Numbers, name: string, mtype: MetricType, ms: seq<Metric>,
                                         now: int)
    requires FamilySeries(enc, num, name, mtype, ms, now) != [] && WellLabelled(ms)
    ensures Supported(enc, mtype)
    ensures NameOf(FamilySeries(enc, num, name, mtype, ms, now)[0]) == FirstSeriesName(name, mtype)
    ensures !HasTag(FamilySeries(enc, num, name, mtype, ms, now)[0])
  {
    if !Supported(enc, mtype) {
      Unsupported(enc, num, name, mtype, ms, now);
      assert false;
    } else {
      var first := SeriesOf(num, name, mtype, ms[0], Timestamp(enc, ms[0], now))[0];
      PlainHasNoTag(first, FirstSeriesName(name, mtype), ms[0].labels);
    }
  }

  /** The first family that emits anything. */
  lemma {:induction false} FirstFamily(enc: Encoder, num: Numbers, fs: seq<MetricFamily>, now: int) returns (h: nat)
    requires Flatten(enc, num, fs, now) != [] && FamiliesWellLabelled(fs)
    ensures h < |fs|
    ensures
      var first := FamilySeries(enc, num, fs[h].name, fs[h].mtype, fs[h].metrics, now);
      && first != []
      && Flatten(enc, num, fs, now) == first + Flatten(enc, num, fs[h + 1..], now)
      && Supported(enc, fs[h].mtype)
      && NameOf(first[0]) == FirstSeriesName(fs[h].name, fs[h].mtype)
      && !HasTag(first[0])
  {
    var f := fs[0];
    var first := FamilySeries(enc, num, f.name, f.mtype, f.metrics, now);
    if first == [] {
      assert Flatten(enc, num, fs, now) == Flatten(enc, num, fs[1..], now);
      assert FamiliesWellLabelled(fs[1..]) by { assert forall i :: 0 <= i < |fs[1..]| ==> fs[1..][i] == fs[i + 1]; }
      h := FirstFamily(enc, num, fs[1..], now);
      h := h + 1;
      assert fs[1..][h..] == fs[h + 1..];
    } else {
      assert WellLabelled(f.metrics);
      FirstOfFamily(enc, num, f.name, f.mtype, f.metrics, now);
      h := 0;
    }
  }

  lemma TailLabelled(fs: seq<MetricFamily>, k: nat)
    requires FamiliesWellLabelled(fs) && k <= |fs|
    ensures FamiliesWellLabelled(fs[k..])
  {
    assert forall i :: 0 <= i < |fs[k..]| ==> fs[k..][i] == fs[k + i];
  }

  /** A list of families can start with a count only by a single-number family, and then goes on plain. */
  lemma StartsWithCount(enc: Encoder, num: Numbers, fs: seq<MetricFamily>, now: int, a: string) returns (j: nat)
    requires Flatten(enc, num, fs, now) != [] && FamiliesWellLabelled(fs)
    requires NameOf(Flatten(enc, num, fs, now)[0]) == a + "_count"
    ensures j < |fs| && EmitsPlain(enc, FamilyType(fs[j].name, fs[j].mtype), a + "_count")
    ensures |Flatten(enc, num, fs, now)| > 1 ==> !HasTag(Flatten(enc, num, fs, now)[1])
  {
    j := FirstFamily(enc, num, fs, now);
    var f := fs[j];
    var first, later := FamilySeries(enc, num, f.name, f.mtype, f.metrics, now), Flatten(enc, num, fs[j + 1..], now);
    SuffixesDiffer(f.name, a);
    assert WellLabelled(f.metrics);
    SimpleFamily(enc, num, f.name, f.mtype, f.metrics, now);
    if |first| == 1 && later != [] {
      TailLabelled(fs, j + 1);
      var h := FirstFamily(enc, num, fs[j + 1..], now);
      assert (first + later)[1] == later[0];
    }
  }

  /** Plain sums followed by a count: a single-number family for the counts comes after, and no buckets do. */
  lemma SumThenCount(enc: Encoder, num: Numbers, sums: seq<TimeSeries>, fs: seq<MetricFamily>, now: int, a: string)
    returns (j: nat)
    requires sums != [] && AllNamed(sums, a + "_sum") && FamiliesWellLabelled(fs)
    requires |sums + Flatten(enc, num, fs, now)| > 1
    requires NameOf((sums + Flatten(enc, num, fs, now))[1]) == a + "_count"
    ensures j < |fs| && EmitsPlain(enc, FamilyType(fs[j].name, fs[j].mtype), a + "_count")
    ensures
      var all := sums + Flatten(enc, num, fs, now);
      |all| > 2 ==> !HasTag(all[2])
  {
    SuffixesDiffer(a, a);
    j := StartsWithCount(enc, num, fs, now, a);
  }

  // ---------------------------------------------------------------- two inputs with the same series

  ghost predicate SameFlat(enc: Encoder, num: Numbers, fs: seq<MetricFamily>, gs: seq<MetricFamily>, now: int) {
    && fs != [] && Schema(fs) == Schema(gs) && DistinctNames(Schema(fs))
    && FamiliesWellLabelled(fs) && FamiliesWellLabelled(gs)
    && Flatten(enc, num, fs, now) == Flatten(enc, num, gs, now)
  }

  function HeadSeries(enc: Encoder, num: Numbers, fs: seq<MetricFamily>, now: int): seq<TimeSeries>
    requires fs != []
  {
    FamilySeries(enc, num, fs[0].name, fs[0].mtype, fs[0].metrics, now)
  }

  /** Where one first family ends and the other goes on, a later family of the other input begins. */
  lemma Overlap(enc: Encoder, num: Numbers, fs: seq<MetricFamily>, gs: seq<MetricFamily>, now: int) returns (h: nat)
    requires SameFlat(enc, num, fs, gs, now) && gs != []
    requires |HeadSeries(enc, num, fs, now)| > |HeadSeries(enc, num, gs, now)|
    ensures 0 < h < |gs| && |gs| == |fs|
    ensures
      var a, n := HeadSeries(enc, num, fs, now), |HeadSeries(enc, num, gs, now)|;
      var first := FamilySeries(enc, num, gs[h].name, gs[h].mtype, gs[h].metrics, now);
      && a[..n] == HeadSeries(enc, num, gs, now)
      && a[n..] + Flatten(enc, num, fs[1..], now) == first + Flatten(enc, num, gs[h + 1..], now)
      && first != [] && Supported(enc, gs[h].mtype) && !HasTag(first[0])
      && NameOf(first[0]) == FirstSeriesName(gs[h].name, gs[h].mtype)
  {
    SchemaAt(fs);
    SchemaAt(gs);
    var a, b := HeadSeries(enc, num, fs, now), HeadSeries(enc, num, gs, now);
    var r, q := Flatten(enc, num, fs[1..], now), Flatten(enc, num, gs[1..], now);
    SameCut(a, r, b, q);
    TailLabelled(gs, 1);
    h := FirstFamily(enc, num, gs[1..], now);
    assert gs[1..][h + 1..] == gs[h + 2..];
    h := h + 1;
  }

  lemma SameCut(a: seq<TimeSeries>, r: seq<TimeSeries>, b: seq<TimeSeries>, q: seq<TimeSeries>)
    requires a + r == b + q && |a| > |b|
    ensures a[..|b|] == b && a[|b|..] + r == q && q != []
  {
    assert (a + r)[..|b|] == a[..|b|] && (b + q)[..|b|] == b;
    assert (a + r)[|b|..] == a[|b|..] + r && (b + q)[|b|..] == q;
  }

  lemma {:induction false} SimpleNotLonger(enc: Encoder, num: Numbers, fs: seq<MetricFamily>, gs: seq<MetricFamily>,
                                           now: int)
    requires SameFlat(enc, num, fs, gs, now) && gs != [] && Simple(fs[0].mtype)
    requires |HeadSeries(enc, num, fs, now)| > |HeadSeries(enc, num, gs, now)|
    ensures Mimicked(enc, Schema(fs))
  {
    var h := Overlap(enc, num, fs, gs, now);
    SchemaAt(fs);
    SchemaAt(gs);
    var sums := HeadSeries(enc, num, fs, now)[|HeadSeries(enc, num, gs, now)|..];
    var g := gs[h];
    var first, later := FamilySeries(enc, num, g.name, g.mtype, g.metrics, now), Flatten(enc, num, gs[h + 1..], now);
    assert WellLabelled(fs[0].metrics);
    FirstOfFamily(enc, num, fs[0].name, fs[0].mtype, fs[0].metrics, now);
    SimpleFamily(enc, num, fs[0].name, fs[0].mtype, fs[0].metrics, now);
    assert (first + later)[0] == first[0] == sums[0];
    assert fs[0].name == FirstSeriesName(g.name, g.mtype);
    assert Schema(fs)[0].name != Schema(fs)[h].name;
    FamilyHeads(enc, num, g.name, g.mtype, g.metrics, now);
    assert NameOf(first[0]) == g.name + "_sum" && NameOf(first[1]) == g.name + "_count";
    assert (first + later)[1] == first[1];
    assert g.mtype.HISTOGRAM? ==> |first| > 2 && (first + later)[2] == first[2];
    TailLabelled(fs, 1);
    var j := SumThenCount(enc, num, sums, fs[1..], now, g.name);
    if g.mtype.HISTOGRAM? {
      assert false;
    }
    assert Mimics(enc, Schema(fs), h, 0, j + 1);
  }

  /** A plain series of a histogram or summary is a sum or a count. */
  lemma {:induction false} PlainIsHead(enc: Encoder, num: Numbers, name: string, mtype: MetricType, ms: seq<Metric>,
                                       now: int, n: nat)
    requires HasDerivedNames(mtype) && n < |FamilySeries(enc, num, name, mtype, ms, now)|
    requires !HasTag(FamilySeries(enc, num, name, mtype, ms, now)[n])
    ensures NameOf(FamilySeries(enc, num, name, mtype, ms, now)[n]) in {name + "_sum", name + "_count"}
  {
    var k := FamilyShaped(enc, num, name, mtype, ms, now, n);
  }

  lemma {:induction false} DerivedNotLonger(enc: Encoder, num: Numbers, fs: seq<MetricFamily>, gs: seq<MetricFamily>,
                                            now: int)
    requires SameFlat(enc, num, fs, gs, now) && gs != [] && HasDerivedNames(fs[0].mtype)
    requires |HeadSeries(enc, num, fs, now)| > |HeadSeries(enc, num, gs, now)|
    ensures Mimicked(enc, Schema(fs))
  {
    var h := Overlap(enc, num, fs, gs, now);
    SchemaAt(fs);
    SchemaAt(gs);
    var a, b := HeadSeries(enc, num, fs, now), HeadSeries(enc, num, gs, now);
    var n, f, g := |b|, fs[0], gs[h];
    var first, later := FamilySeries(enc, num, g.name, g.mtype, g.metrics, now), Flatten(enc, num, gs[h + 1..], now);
    var all := first + later;
    assert all == a[n..] + Flatten(enc, num, fs[1..], now);
    assert all[0] == first[0] == a[n];
    PlainIsHead(enc, num, f.name, f.mtype, f.metrics, now, n);
    FamilyHeads(enc, num, f.name, f.mtype, f.metrics, now);
    FamilyHeads(enc, num, f.name, f.mtype, gs[0].metrics, now);
    assert n > 0 ==> a[n - 1] == a[..n][n - 1] == b[n - 1];
    assert NameOf(a[n]) == f.name + "_sum";
    OtherSumIsSimple(f.name, g);
    assert Schema(fs)[0].name != Schema(fs)[h].name;
    assert WellLabelled(g.metrics);
    SimpleFamily(enc, num, g.name, g.mtype, g.metrics, now);
    assert all[1] == a[n + 1];
    assert f.mtype.HISTOGRAM? ==> |all| > 2 && all[2] == a[n + 2];
    TailLabelled(gs, h + 1);
    var j := SumThenCount(enc, num, first, gs[h + 1..], now, f.name);
    if f.mtype.HISTOGRAM? {
      assert false;
    }
    assert Mimics(enc, Schema(fs), 0, h, h + 1 + j);
  }

  lemma OtherSumIsSimple(a: string, g: MetricFamily)
    requires FirstSeriesName(g.name, g.mtype) == a + "_sum" && g.name != a && !g.mtype.GAUGE_HISTOGRAM?
    ensures Simple(g.mtype) && g.name == a + "_sum"
  {
    if HasDerivedNames(g.mtype) {
      SuffixCancels(g.name, a, "_sum");
    }
  }

  /** With nothing to mimic a summary, the first families of two inputs with the same series are alike. */
  lemma {:induction false} SameHead(enc: Encoder, num: Numbers, fs: seq<MetricFamily>, gs: seq<MetricFamily>, now: int)
    requires SameFlat(enc, num, fs, gs, now) && gs != [] && !Mimicked(enc, Schema(fs))
    ensures |HeadSeries(enc, num, fs, now)| <= |HeadSeries(enc, num, gs, now)|
  {
    if |HeadSeries(enc, num, fs, now)| > |HeadSeries(enc, num, gs, now)| {
      if Simple(fs[0].mtype) {
        SimpleNotLonger(enc, num, fs, gs, now);
      } else if HasDerivedNames(fs[0].mtype) {
        DerivedNotLonger(enc, num, fs, gs, now);
      } else {
        Unsupported(enc, num, fs[0].name, fs[0].mtype, fs[0].metrics, now);
      }
    }
  }

  lemma MimickedTail(enc: Encoder, schema: seq<FamilyType>)
    requires schema != [] && DistinctNames(schema) && !Mimicked(enc, schema)
    ensures DistinctNames(schema[1..]) && !Mimicked(enc, schema[1..])
  {
    forall p: nat, i: nat, j: nat ensures !Mimics(enc, schema[1..], p, i, j) {
      if Mimics(enc, schema[1..], p, i, j) {
        assert Mimics(enc, schema, p + 1, i + 1, j + 1);
      }
    }
  }

  /** A family's series determine its contents. */
  lemma {:induction false} SameContents(enc: Encoder, num: Numbers, rd: Reader, name: string, mtype: MetricType,
                                        ms: seq<Metric>, ms': seq<Metric>, now: int)
    requires AllReadable(num, rd, mtype, ms) && AllReadable(num, rd, mtype, ms')
    requires FamilySeries(enc, num, name, mtype, ms, now) == FamilySeries(enc, num, name, mtype, ms', now)
    ensures FamilyContents(enc, mtype, ms, now) == FamilyContents(enc, mtype, ms', now)
  {
    FamilyComesBack(enc, num, rd, name, mtype, ms, now, []);
    FamilyComesBack(enc, num, rd, name, mtype, ms', now, []);
  }

  lemma {:induction false} SameSeriesSameContents(enc: Encoder, num: Numbers, rd: Reader, fs: seq<MetricFamily>,
                                                  gs: seq<MetricFamily>, now: int)
    requires Schema(fs) == Schema(gs) && DistinctNames(Schema(fs)) && !Mimicked(enc, Schema(fs))
    requires FamiliesWellLabelled(fs) && FamiliesWellLabelled(gs)
    requires FamiliesReadable(num, rd, fs) && FamiliesReadable(num, rd, gs)
    requires Flatten(enc, num, fs, now) == Flatten(enc, num, gs, now)
    ensures Contents(enc, fs, now) == Contents(enc, gs, now)
  {
    SchemaAt(fs);
    SchemaAt(gs);
    if fs == [] {
    } else {
      SameHead(enc, num, fs, gs, now);
      SameHead(enc, num, gs, fs, now);
      SameSplit(HeadSeries(enc, num, fs, now), Flatten(enc, num, fs[1..], now),
                HeadSeries(enc, num, gs, now), Flatten(enc, num, gs[1..], now));
      assert Schema(fs)[0] == Schema(gs)[0];
      SameContents(enc, num, rd, fs[0].name, fs[0].mtype, fs[0].metrics, gs[0].metrics, now);
      MimickedTail(enc, Schema(fs));
      TailLabelled(fs, 1);
      TailLabelled(gs, 1);
      assert Schema(fs)[1..] == Schema(fs[1..]) && Schema(gs)[1..] == Schema(gs[1..]);
      SameSeriesSameContents(enc, num, rd, fs[1..], gs[1..], now);
    }
  }

  lemma SameSplit(a: seq<TimeSeries>, r: seq<TimeSeries>, b: seq<TimeSeries>, q: seq<TimeSeries>)
    requires a + r == b + q && |a| == |b|
    ensures a == b && r == q
  {
    assert (a + r)[..|a|] == a && (b + q)[..|b|] == b;
    assert (a + r)[|a|..] == r && (b + q)[|b|..] == q;
  }

  // ---------------------------------------------------------------- a mimicked summary

  /** Families of a schema without metrics, but for those at the given place. */
  function Blank(schema: seq<FamilyType>): seq<MetricFamily> {
    seq(|schema|, i requires 0 <= i < |schema| => MetricFamily(schema[i].name, schema[i].mtype, []))
  }

  function Fill(fs: seq<MetricFamily>, k: nat, m: Metric): seq<MetricFamily>
    requires k < |fs|
  {
    fs[k := MetricFamily(fs[k].name, fs[k].mtype, [m])]
  }

  lemma {:induction false} SchemaIs(schema: seq<FamilyType>, fs: seq<MetricFamily>)
    requires |fs| == |schema|
    requires forall i :: 0 <= i < |fs| ==> FamilyType(fs[i].name, fs[i].mtype) == schema[i]
    ensures Schema(fs) == schema
  {
    SchemaAt(fs);
  }

  predicate AllBlank(fs: seq<MetricFamily>) {
    forall i :: 0 <= i < |fs| ==> fs[i].metrics == []
  }

  lemma {:induction false} FlattenBlank(enc: Encoder, num: Numbers, fs: seq<MetricFamily>, now: int)
    requires AllBlank(fs)
    ensures Flatten(enc, num, fs, now) == []
  {
    if fs == [] {
    } else {
      FlattenBlank(enc, num, fs[1..], now);
    }
  }

  /** Blank families in front change nothing. */
  lemma {:induction false} FlattenFrom(enc: Encoder, num: Numbers, fs: seq<MetricFamily>, k: nat, now: int)
    requires k < |fs| && AllBlank(fs[..k])
    ensures Flatten(enc, num, fs, now) ==
      FamilySeries(enc, num, fs[k].name, fs[k].mtype, fs[k].metrics, now) + Flatten(enc, num, fs[k + 1..], now)
  {
    if k == 0 {
    } else {
      assert fs[0] == fs[..k][0] && fs[1..][..k - 1] == fs[..k][1..] && fs[1..][k..] == fs[k + 1..];
      FlattenFrom(enc, num, fs[1..], k - 1, now);
    }
  }

  /** One family that is not blank. */
  lemma {:induction false} FlattenOne(enc: Encoder, num: Numbers, fs: seq<MetricFamily>, k: nat, now: int)
    requires k < |fs| && AllBlank(fs[..k]) && AllBlank(fs[k + 1..])
    ensures Flatten(enc, num, fs, now) == FamilySeries(enc, num, fs[k].name, fs[k].mtype, fs[k].metrics, now)
  {
    FlattenFrom(enc, num, fs, k, now);
    FlattenBlank(enc, num, fs[k + 1..], now);
  }

  /** Two families that are not blank. */
  lemma {:induction false} FlattenTwo(enc: Encoder, num: Numbers, fs: seq<MetricFamily>, i: nat, j: nat, now: int)
    requires i < j < |fs| && AllBlank(fs[..i]) && AllBlank(fs[i + 1..j]) && AllBlank(fs[j + 1..])
    ensures Flatten(enc, num, fs, now) ==
      FamilySeries(enc, num, fs[i].name, fs[i].mtype, fs[i].metrics, now) +
      FamilySeries(enc, num, fs[j].name, fs[j].mtype, fs[j].metrics, now)
  {
    FlattenFrom(enc, num, fs, i, now);
    assert fs[i + 1..][..j - i - 1] == fs[i + 1..j] && fs[i + 1..][j - i..] == fs[j + 1..];
    FlattenOne(enc, num, fs[i + 1..], j - i - 1, now);
  }

  lemma {:induction false} ContentsAt(enc: Encoder, fs: seq<MetricFamily>, now: int, k: nat)
    requires k < |fs|
    ensures |Contents(enc, fs, now)| == |fs|
    ensures Contents(enc, fs, now)[k] == FamilyContents(enc, fs[k].mtype, fs[k].metrics, now)
  {
    if |fs| == 1 {
      assert fs[1..] == [];
    } else {
      ContentsAt(enc, fs[1..], now, if k == 0 then 0 else k - 1);
    }
  }

  /** A metric without labels that is zero in every respect but the single number. */
  function Plain(value: Double): Metric {
    Metric([], None, value, value, value, Histogram(Double(0), 0, []), Summary(Double(0), 0, []))
  }

  /** The inputs of a schema: sorted user labels, and numbers that survive conversion. */
  ghost predicate Admissible(num: Numbers, rd: Reader, schema: seq<FamilyType>, fs: seq<MetricFamily>) {
    Schema(fs) == schema && FamiliesWellLabelled(fs) && FamiliesReadable(num, rd, fs)
  }

  /** The series that a family with a single metric emits. */
  lemma {:induction false} OneMetric(enc: Encoder, num: Numbers, name: string, mtype: MetricType, m: Metric, now: int)
    ensures FamilySeries(enc, num, name, mtype, [m], now) == MetricSeries(enc, num, name, mtype, m, now)
  {
    assert [m][1..] == [];
    assert FamilySeries(enc, num, name, mtype, [], now) == [];
  }

  /** A summary of zeros alone, with the series it yields. */
  lemma OnlySummary(enc: Encoder, num: Numbers, rd: Reader, schema: seq<FamilyType>, p: nat, now: int)
    returns (fs: seq<MetricFamily>)
    requires p < |schema| && schema[p].mtype.SUMMARY? && rd.toCount(num.ofCount(0)) == 0
    ensures Admissible(num, rd, schema, fs)
    ensures Flatten(enc, num, fs, now) == SumAndCount(num, schema[p].name, [], Double(0), 0, now)
    ensures p < |Contents(enc, fs, now)| && Contents(enc, fs, now)[p] != []
  {
    var a := schema[p].name;
    fs := Fill(Blank(schema), p, Plain(Double(0)));
    SchemaIs(schema, fs);
    FlattenOne(enc, num, fs, p, now);
    OneMetric(enc, num, a, SUMMARY, Plain(Double(0)), now);
    ContentsAt(enc, fs, now, p);
  }

  /** What a supported single-number family of one plain metric emits. */
  lemma {:induction false} PlainSeries(enc: Encoder, num: Numbers, f: FamilyType, name: string, value: Double, now: int)
    requires EmitsPlain(enc, f, name)
    ensures FamilySeries(enc, num, f.name, f.mtype, [Plain(value)], now) == [One(Named(name, []), value, now)]
  {
    OneMetric(enc, num, f.name, f.mtype, Plain(value), now);
  }

  /** Two metrics among blank families. */
  lemma {:induction false} FillTwo(schema: seq<FamilyType>, i: nat, j: nat, s: Metric, c: Metric)
    returns (fs: seq<MetricFamily>)
    requires i < j < |schema|
    ensures Schema(fs) == schema && |fs| == |schema|
    ensures fs[i] == MetricFamily(schema[i].name, schema[i].mtype, [s])
    ensures fs[j] == MetricFamily(schema[j].name, schema[j].mtype, [c])
    ensures AllBlank(fs[..i]) && AllBlank(fs[i + 1..j]) && AllBlank(fs[j + 1..])
    ensures forall k :: 0 <= k < |fs| && k != i && k != j ==> fs[k].metrics == []
  {
    fs := Fill(Fill(Blank(schema), i, s), j, c);
    SchemaIs(schema, fs);
  }

  /** Two single numbers of other families that yield the same. */
  lemma {:induction false} OnlyNumbers(enc: Encoder, num: Numbers, rd: Reader, schema: seq<FamilyType>, p: nat, i: nat,
                                       j: nat, now: int)
    returns (fs: seq<MetricFamily>)
    requires Mimics(enc, schema, p, i, j)
    ensures Admissible(num, rd, schema, fs)
    ensures Flatten(enc, num, fs, now) == SumAndCount(num, schema[p].name, [], Double(0), 0, now)
    ensures p < |Contents(enc, fs, now)| && Contents(enc, fs, now)[p] == []
  {
    var a, s, c := schema[p].name, Plain(Double(0)), Plain(num.ofCount(0));
    fs := FillTwo(schema, i, j, s, c);
    FlattenTwo(enc, num, fs, i, j, now);
    PlainSeries(enc, num, schema[i], a + "_sum", Double(0), now);
    PlainSeries(enc, num, schema[j], a + "_count", num.ofCount(0), now);
    ContentsAt(enc, fs, now, p);
    assert fs[p].metrics == [];
  }

  /** Inputs of the schema with the same series have the same contents. */
  ghost predicate Lossless(enc: Encoder, num: Numbers, rd: Reader, schema: seq<FamilyType>, now: int) {
    forall fs, gs :: Admissible(num, rd, schema, fs) && Admissible(num, rd, schema, gs) &&
                     Flatten(enc, num, fs, now) == Flatten(enc, num, gs, now) ==>
      Contents(enc, fs, now) == Contents(enc, gs, now)
  }

  /**
  The exact condition.  For distinct family names, flattening loses nothing if and only if there is no
  summary `a` with supported single-number families `a_sum` and, after it, `a_count`.
  */
  lemma LosslessIffNotMimicked(enc: Encoder, num: Numbers, rd: Reader, schema: seq<FamilyType>, now: int)
    requires DistinctNames(schema) && rd.toCount(num.ofCount(0)) == 0
    ensures Lossless(enc, num, rd, schema, now) <==> !Mimicked(enc, schema)
  {
    if Mimicked(enc, schema) {
      var p: nat, i: nat, j: nat :| Mimics(enc, schema, p, i, j);
      var fs := OnlySummary(enc, num, rd, schema, p, now);
      var gs := OnlyNumbers(enc, num, rd, schema, p, i, j, now);
      assert !Lossless(enc, num, rd, schema, now) by {
        assert Contents(enc, fs, now)[p] != Contents(enc, gs, now)[p];
      }
    } else {
      forall fs, gs | Admissible(num, rd, schema, fs) && Admissible(num, rd, schema, gs) &&
                      Flatten(enc, num, fs, now) == Flatten(enc, num, gs, now)
        ensures Contents(enc, fs, now) == Contents(enc, gs, now)
      {
        SameSeriesSameContents(enc, num, rd, fs, gs, now);
      }
    }
  }
}
