/**
 * The daily aggregation: a forecast is bucketed by calendar day, the day
 * keys are sorted, and each bucket is reduced to one summary dated at
 * midnight of its day in the zone of the forecast's first reading.
 */
module Aggregation {
  import opened Observations
  import opened Reducers
  import opened Grouping

  datatype Option<T> = None | Some(value: T)

  /** The summary of a non-empty bucket of day `key`: the mean temperature,
      the smallest TemperatureMin, the largest TemperatureMax and the mean
      humidity of the bucket, dated at midnight of `key` in `zone`. */
  function Summarize(key: DayKey, hourly: Forecast, zone: Zone): (s: Weather)
    requires hourly != []
    ensures s.date == Midnight(key, zone)
    ensures s.temperature == Sum(Temperatures(hourly)) / |hourly| as real
    ensures s.humidity == Sum(Humidities(hourly)) / |hourly| as real
    ensures forall i :: 0 <= i < |hourly| ==>
      s.temperatureMin <= hourly[i].temperatureMin && hourly[i].temperatureMax <= s.temperatureMax
    ensures exists i :: 0 <= i < |hourly| && hourly[i].temperatureMax == s.temperatureMax
    ensures exists i :: 0 <= i < |hourly| && hourly[i].temperatureMin == s.temperatureMin
  {
    var maxes, mins := TemperatureMaxes(hourly), TemperatureMins(hourly);
    assert forall i :: 0 <= i < |hourly| ==>
      maxes[i] == hourly[i].temperatureMax && mins[i] == hourly[i].temperatureMin;
    Weather(
      Midnight(key, zone),
      Mean(Temperatures(hourly)).v,
      Smallest(TemperatureMins(hourly)).v,
      Largest(TemperatureMaxes(hourly)).v,
      Mean(Humidities(hourly)).v)
  }

  /** The summaries of the buckets of `keys`, in the order of `keys`. */
  function Summaries(f: Forecast, keys: seq<DayKey>, zone: Zone): (d: Forecast)
    requires forall k :: k in keys ==> k in KeySet(f)
    ensures |d| == |keys|
  {
    if keys == [] then []
    else
      var front, k := keys[..|keys| - 1], keys[|keys| - 1];
      assert forall x :: x in front ==> x in keys;
      BucketNonEmpty(f, k);
      Summaries(f, front, zone) + [Summarize(k, Bucket(f, k), zone)]
  }

  /** The daily forecast of `f`: one summary per distinct day key, in
      ascending key order, every one dated in the zone of `f`'s first
      reading. */
  function DailySummaries(f: Forecast): (d: Forecast)
    ensures f == [] ==> d == []
    ensures |d| == |FirstSeen(f)|
  {
    if f == [] then []
    else
      FirstSeenPresent(f);
      Summaries(f, SortKeys(FirstSeen(f)), f[0].date.zone)
  }

  /** What the first loop of Daily has built after `i` readings: the keys in
      first-encounter order, and a map from each key met so far to its
      bucket. */
  ghost predicate Grouped(f: Forecast, i: nat, days: map<DayKey, Forecast>, keys: seq<DayKey>)
    requires i <= |f|
  {
    && keys == FirstSeen(f[..i])
    && (forall k :: k in days <==> k in KeySet(f[..i]))
    && (forall k :: k in days ==> days[k] == Bucket(f[..i], k))
  }

  /** One step of the first loop: appending reading `i` to its bucket, and
      its key to `keys` when the key is new, keeps the grouping exact. */
  lemma GroupStep(f: Forecast, i: nat, days: map<DayKey, Forecast>, keys: seq<DayKey>)
    requires i < |f| && Grouped(f, i, days, keys)
    ensures var key := Key(f[i]);
      Grouped(f, i + 1,
        days[key := (if key in days then days[key] else []) + [f[i]]],
        if key in days then keys else keys + [key])
  {
    BucketMembers(f[..i], Key(f[i]));
    PrefixStep(f, i);
  }

  /** One step of the second loop: the summaries of one more key. */
  lemma SummariesStep(f: Forecast, keys: seq<DayKey>, zone: Zone, j: nat)
    requires forall k :: k in keys ==> k in KeySet(f)
    requires j < |keys|
    ensures Bucket(f, keys[j]) != []
    ensures Summaries(f, keys[..j + 1], zone)
         == Summaries(f, keys[..j], zone) + [Summarize(keys[j], Bucket(f, keys[j]), zone)]
  {
    BucketNonEmpty(f, keys[j]);
    assert keys[..j + 1][..j] == keys[..j];
  }

  /** Forecast.Daily: the first loop fills `days` and `keys` and remembers the
      first reading's zone in `loc`; `keys` is then sorted; the second loop
      appends one summary per key. */
  method Daily(f: Forecast) returns (daily: Forecast)
    ensures daily == DailySummaries(f)
    ensures f == [] ==> daily == []
    ensures |daily| == |KeySet(f)|
    ensures StrictlyIncreasing(Days(daily))
    ensures forall k :: k in Days(daily) <==> k in KeySet(f)
  {
    var days: map<DayKey, Forecast> := map[];
    var keys: seq<DayKey> := [];
    var loc: Option<Zone> := None;
    for i := 0 to |f|
      invariant Grouped(f, i, days, keys)
      invariant loc == if i == 0 then None else Some(f[0].date.zone)
    {
      var w := f[i];
      if loc.None? {
        loc := Some(w.date.zone);
      }
      var key := Key(w);
      GroupStep(f, i, days, keys);
      if key !in days {
        keys := keys + [key];
      }
      days := days[key := (if key in days then days[key] else []) + [w]];
    }
    assert f[..|f|] == f;
    FirstSeenPresent(f);
    keys := SortKeys(keys);

    daily := [];
    for j := 0 to |keys|
      invariant f == [] ==> daily == []
      invariant f != [] ==> daily == Summaries(f, keys[..j], f[0].date.zone)
    {
      var key := keys[j];
      var hourly := days[key];
      SummariesStep(f, keys, loc.value, j);
      var humidity := AverageHumidity(hourly);
      var temperature := AverageTemperature(hourly);
      var low := MinimumTemperature(hourly);
      var high := MaximumTemperature(hourly);
      var date := Midnight(key, loc.value);
      daily := daily + [Weather(date, temperature.v, low.v, high.v, humidity.v)];
    }
    assert keys[..|keys|] == keys;
    DailyShape(f);
  }

  /** The summary at position `i` is the summary of the bucket of `keys[i]`. */
  lemma {:induction false} SummariesAt(f: Forecast, keys: seq<DayKey>, zone: Zone, i: nat)
    requires forall k :: k in keys ==> k in KeySet(f)
    requires i < |keys|
    ensures Bucket(f, keys[i]) != []
    ensures Summaries(f, keys, zone)[i] == Summarize(keys[i], Bucket(f, keys[i]), zone)
  {
    BucketMembers(f, keys[i]);
    var front := keys[..|keys| - 1];
    if i < |keys| - 1 {
      assert forall x :: x in front ==> x in keys;
      SummariesAt(f, front, zone, i);
    }
  }

  /** The summaries carry the keys they were made for, in the same order. */
  lemma SummariesKeys(f: Forecast, keys: seq<DayKey>, zone: Zone)
    requires forall k :: k in keys ==> k in KeySet(f)
    ensures Days(Summaries(f, keys, zone)) == keys
  {
    var d := Summaries(f, keys, zone);
    forall i | 0 <= i < |keys| ensures Days(d)[i] == keys[i] {
      SummariesAt(f, keys, zone, i);
    }
  }

  /** The shape of the daily forecast: empty for an empty input; one summary
      per distinct day key; keys strictly ascending whatever the input order;
      every summary at midnight of its day in the first reading's zone. */
  lemma DailyShape(f: Forecast)
    ensures f == [] ==> DailySummaries(f) == []
    ensures |DailySummaries(f)| == |KeySet(f)|
    ensures StrictlyIncreasing(Days(DailySummaries(f)))
    ensures forall k :: k in Days(DailySummaries(f)) <==> k in KeySet(f)
    ensures f != [] ==> forall i :: 0 <= i < |DailySummaries(f)| ==>
      DailySummaries(f)[i].date == Midnight(Key(DailySummaries(f)[i]), f[0].date.zone)
  {
    if f != [] {
      var keys := SortKeys(FirstSeen(f));
      var zone := f[0].date.zone;
      FirstSeenKeys(f);
      SortKeysStrict(FirstSeen(f));
      SummariesKeys(f, keys, zone);
      forall i | 0 <= i < |keys|
        ensures DailySummaries(f)[i].date == Midnight(Key(DailySummaries(f)[i]), zone)
      {
        SummariesAt(f, keys, zone, i);
      }
    }
  }

  /** The buckets of the emitted days, concatenated in the emitted order,
      are a permutation of the input: every reading is summarised in exactly
      one day. */
  lemma DailyPartition(f: Forecast)
    ensures multiset(Regroup(f, Days(DailySummaries(f)))) == multiset(f)
  {
    DailyShape(f);
    var keys := Days(DailySummaries(f));
    assert Distinct(keys);
    RegroupPermutation(f, keys);
  }

  /** Each summary's TemperatureMax is the largest TemperatureMax among the
      readings of its day and its TemperatureMin the smallest TemperatureMin;
      both are values some reading of that day carries. */
  lemma DailyExtremes(f: Forecast, i: nat)
    requires i < |DailySummaries(f)|
    ensures var s := DailySummaries(f)[i];
      forall w :: w in f && Key(w) == Key(s) ==>
        s.temperatureMin <= w.temperatureMin && w.temperatureMax <= s.temperatureMax
    ensures var s := DailySummaries(f)[i];
      exists w :: w in f && Key(w) == Key(s) && w.temperatureMax == s.temperatureMax
    ensures var s := DailySummaries(f)[i];
      exists w :: w in f && Key(w) == Key(s) && w.temperatureMin == s.temperatureMin
  {
    FirstSeenKeys(f);
    var keys := SortKeys(FirstSeen(f));
    SummariesAt(f, keys, f[0].date.zone, i);
    var s := DailySummaries(f)[i];
    var b := Bucket(f, keys[i]);
    assert Key(s) == keys[i];
    BucketMembers(f, keys[i]);
    assert s == Summarize(keys[i], b, f[0].date.zone);
    var maxes, mins := TemperatureMaxes(b), TemperatureMins(b);
    assert |maxes| == |b| && |mins| == |b|;
    var mx, mn := Largest(maxes), Smallest(mins);
    assert mx.Finite? && mn.Finite?;
    assert s.temperatureMax == mx.v;
    assert s.temperatureMin == mn.v;
    forall w | w in f && Key(w) == Key(s)
      ensures s.temperatureMin <= w.temperatureMin && w.temperatureMax <= s.temperatureMax
    {
      assert w in b;
      var j :| 0 <= j < |b| && b[j] == w;
      assert maxes[j] == w.temperatureMax && mins[j] == w.temperatureMin;
    }
    var hi :| 0 <= hi < |maxes| && maxes[hi] == s.temperatureMax;
    assert b[hi] in b;
    var lo :| 0 <= lo < |mins| && mins[lo] == s.temperatureMin;
    assert b[lo] in b;
  }

  /** Each summary's temperature and humidity are the means of those fields
      over the readings of its day: their sums divided by the bucket size. */
  lemma DailyAverages(f: Forecast, i: nat)
    requires i < |DailySummaries(f)|
    ensures var s := DailySummaries(f)[i];
      var b := Bucket(f, Key(s));
      b != [] &&
      s.temperature == Sum(Temperatures(b)) / |b| as real &&
      s.humidity == Sum(Humidities(b)) / |b| as real
  {
    var keys := SortKeys(FirstSeen(f));
    FirstSeenKeys(f);
    SummariesAt(f, keys, f[0].date.zone, i);
  }

  /** A summary dated at midnight of its own key in `zone` is its own
      summary: one reading's mean, minimum and maximum are that reading. */
  lemma SummarizeSingleton(key: DayKey, s: Weather, zone: Zone)
    requires s.date == Midnight(key, zone)
    ensures Summarize(key, [s], zone) == s
  {
    MeanOfConstant(Temperatures([s]), s.temperature);
    MeanOfConstant(Humidities([s]), s.humidity);
  }

  /** A forecast with one reading per day, in strictly ascending day order,
      every reading at midnight of its day in `zone`, is its own sequence of
      summaries. */
  lemma SummariesOfDaily(d: Forecast, zone: Zone)
    requires StrictlyIncreasing(Days(d))
    requires forall i :: 0 <= i < |d| ==> d[i].date == Midnight(Key(d[i]), zone)
    ensures forall k :: k in Days(d) ==> k in KeySet(d)
    ensures Summaries(d, Days(d), zone) == d
  {
    KeySetMembers(d);
    assert Distinct(Days(d));
    forall i | 0 <= i < |d| ensures Summaries(d, Days(d), zone)[i] == d[i] {
      SummariesAt(d, Days(d), zone, i);
      BucketOfDistinct(d, i);
      SummarizeSingleton(Key(d[i]), d[i], zone);
    }
  }

  /** Aggregating a daily forecast again changes nothing: each day already
      has exactly one summary, and all summaries share one zone. */
  lemma DailyIdempotent(f: Forecast)
    ensures DailySummaries(DailySummaries(f)) == DailySummaries(f)
  {
    if f != [] {
      var d := DailySummaries(f);
      var zone := f[0].date.zone;
      DailyShape(f);
      KeySetMembers(f);
      assert Days(f)[0] in Days(f);
      assert d != [];
      FirstSeenOfDistinct(d);
      SortKeysOfSorted(Days(d));
      SummariesOfDaily(d, zone);
    }
  }
}
