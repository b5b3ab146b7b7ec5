/**
 * The derived series of the admin analytics charts
 * (frontend/admin-panel/charts.js): the heart-rate health-trend buckets, the
 * retention "signal" proxy and the emotion distribution pie. Heart-rate
 * values are JSON numbers, modelled as reals.
 */
module Charts {
  import opened Wrappers
  import opened JsValue

  // ---------------------------------------------------------------------------
  // Health trends: bucketing the heart-rate series

  datatype Bucket = Stable | AtRisk | Critical

  /** The key of each bucket's counter, in the order the counters object is written. */
  function Label(b: Bucket): string {
    match b
    case Stable => "Stable"
    case AtRisk => "At Risk"
    case Critical => "Critical"
  }

  const Labels: seq<string> := ["Stable", "At Risk", "Critical"]

  /** Critical outside [60, 100]; else At Risk outside [65, 90]; else Stable. */
  function Classify(v: real): (b: Bucket)
    ensures b == Critical <==> v < 60.0 || v > 100.0
    ensures b == AtRisk <==> (60.0 <= v < 65.0) || (90.0 < v <= 100.0)
    ensures b == Stable <==> 65.0 <= v <= 90.0
  {
    if v < 60.0 || v > 100.0 then Critical
    else if v < 65.0 || v > 90.0 then AtRisk
    else Stable
  }

  /** How many values of the series fall in bucket b. */
  function CountIn(series: seq<real>, b: Bucket): (n: nat)
    ensures n <= |series|
  {
    if series == [] then 0
    else CountIn(series[..|series| - 1], b) + (if Classify(series[|series| - 1]) == b then 1 else 0)
  }

  /** Counting one more value adds one to its own bucket and nothing to the others. */
  lemma CountSnoc(series: seq<real>, v: real, b: Bucket)
    ensures CountIn(series + [v], b) == CountIn(series, b) + (if Classify(v) == b then 1 else 0)
  {
    assert (series + [v])[..|series|] == series;
  }

  /** The counters object after counting the series. */
  function Counters(series: seq<real>): map<string, nat> {
    map["Stable" := CountIn(series, Stable), "At Risk" := CountIn(series, AtRisk), "Critical" := CountIn(series, Critical)]
  }

  /**
   * `dist` starts with the three counters at 0 and each value increments
   * the counter of its bucket; the chart shows the keys and values of
   * `dist`, in the order it was written.
   */
  method HealthTrends(series: seq<real>) returns (labels: seq<string>, data: seq<nat>)
    ensures labels == Labels
    ensures data == [CountIn(series, Stable), CountIn(series, AtRisk), CountIn(series, Critical)]
  {
    var dist: map<string, nat> := map["Stable" := 0, "At Risk" := 0, "Critical" := 0];
    var i := 0;
    while i < |series|
      invariant 0 <= i <= |series|
      invariant dist == Counters(series[..i])
    {
      assert series[..i + 1][..i] == series[..i];
      var key := Label(Classify(series[i]));
      dist := dist[key := dist[key] + 1];
      i := i + 1;
    }
    assert series[..i] == series;
    labels := Labels;
    data := [dist["Stable"], dist["At Risk"], dist["Critical"]];
  }

  /** Every value is counted in exactly one bucket: the three counts add up to the series' length. */
  lemma {:induction false} CountsAddUp(series: seq<real>)
    ensures CountIn(series, Stable) + CountIn(series, AtRisk) + CountIn(series, Critical) == |series|
  {
    if series != [] {
      CountsAddUp(series[..|series| - 1]);
    }
  }

  /** Counting distributes over joining two series. */
  lemma {:induction false} CountAppend(a: seq<real>, b: seq<real>, k: Bucket)
    ensures CountIn(a + b, k) == CountIn(a, k) + CountIn(b, k)
  {
    if b == [] {
      assert a + b == a;
    } else {
      assert (a + b)[..|a + b| - 1] == a + b[..|b| - 1];
      CountAppend(a, b[..|b| - 1], k);
    }
  }

  /** A bucket that no value falls in still shows, with count 0. */
  lemma AllStable(series: seq<real>)
    requires forall i :: 0 <= i < |series| ==> 65.0 <= series[i] <= 90.0
    ensures CountIn(series, Stable) == |series|
    ensures CountIn(series, AtRisk) == 0 && CountIn(series, Critical) == 0
  {
    CountsAddUp(series);
    StableCount(series);
  }

  lemma {:induction false} StableCount(series: seq<real>)
    requires forall i :: 0 <= i < |series| ==> 65.0 <= series[i] <= 90.0
    ensures CountIn(series, Stable) == |series|
  {
    if series != [] {
      StableCount(series[..|series| - 1]);
    }
  }

  // ---------------------------------------------------------------------------
  // Retention rate: the signal proxy

  function Abs(x: real): real {
    if x < 0.0 then -x else x
  }

  /** `Math.max(70, 90 - Math.abs(75 - x))`. */
  function Proxy(x: real): (r: real)
    ensures 70.0 <= r <= 90.0
    ensures r == 90.0 <==> x == 75.0
    ensures r == 70.0 <==> Abs(75.0 - x) >= 20.0
  {
    var peak := 90.0 - Abs(75.0 - x);
    if peak < 70.0 then 70.0 else peak
  }

  /** The proxy is symmetric about 75. */
  lemma ProxySymmetric(d: real)
    ensures Proxy(75.0 + d) == Proxy(75.0 - d)
  {
  }

  /** The proxy decreases as the value moves away from 75. */
  lemma ProxyFalls(x: real, y: real)
    requires Abs(75.0 - x) <= Abs(75.0 - y)
    ensures Proxy(y) <= Proxy(x)
  {
  }

  /** `heartRate.map(...)`: the series, value by value. */
  function ProxySeries(series: seq<real>): (r: seq<real>)
    ensures |r| == |series|
    ensures forall i :: 0 <= i < |series| ==> r[i] == Proxy(series[i])
  {
    seq(|series|, i requires 0 <= i < |series| => Proxy(series[i]))
  }

  // ---------------------------------------------------------------------------
  // Emotion distribution

  /** An object's entries in key order; a JSON object's keys are distinct. */
  predicate DistinctKeys(entries: seq<(string, Value)>) {
    forall i, j :: 0 <= i < j < |entries| ==> entries[i].0 != entries[j].0
  }

  /** `distribution[l]`: the entry under key l, undefined when there is none. */
  function Lookup(entries: seq<(string, Value)>, l: string): (v: Value)
    ensures (forall i :: 0 <= i < |entries| ==> entries[i].0 != l) ==> v == Null
  {
    if entries == [] then Null
    else if entries[0].0 == l then entries[0].1
    else Lookup(entries[1..], l)
  }

  lemma {:induction false} LookupAt(entries: seq<(string, Value)>, i: nat)
    requires DistinctKeys(entries)
    requires i < |entries|
    ensures Lookup(entries, entries[i].0) == entries[i].1
  {
    if i > 0 {
      assert entries[0].0 != entries[i].0;
      assert entries[1..][i - 1] == entries[i];
      LookupAt(entries[1..], i - 1);
    }
  }

  /**
   * `labels = Object.keys(distribution || {})` and
   * `data = labels.map(l => distribution[l])`. A missing or falsy
   * distribution is None.
   */
  function EmotionChart(distribution: Option<seq<(string, Value)>>): (r: (seq<string>, seq<Value>))
    requires distribution.Some? ==> DistinctKeys(distribution.value)
    ensures distribution.None? ==> r.0 == [] && r.1 == []
    ensures distribution.Some? ==>
      |r.0| == |distribution.value| && |r.1| == |r.0|
      && (forall i :: 0 <= i < |r.0| ==> r.0[i] == distribution.value[i].0)
      && (forall i :: 0 <= i < |r.1| ==> r.1[i] == distribution.value[i].1)
  {
    var entries := if distribution.Some? then distribution.value else [];
    var labels := seq(|entries|, i requires 0 <= i < |entries| => entries[i].0);
    var data := seq(|labels|, i requires 0 <= i < |labels| => Lookup(entries, labels[i]));
    assert forall i :: 0 <= i < |data| ==> data[i] == entries[i].1 by {
      forall i | 0 <= i < |data| ensures data[i] == entries[i].1 {
        LookupAt(entries, i);
      }
    }
    (labels, data)
  }

  /** Each slice is the count its label has in the distribution. */
  lemma SliceIsLookup(entries: seq<(string, Value)>, i: nat)
    requires DistinctKeys(entries)
    requires i < |entries|
    ensures EmotionChart(Some(entries)).1[i] == Lookup(entries, EmotionChart(Some(entries)).0[i])
  {
    LookupAt(entries, i);
  }
}
