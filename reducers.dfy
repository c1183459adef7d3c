/**
 * The four reducers over a forecast: the largest TemperatureMax, the
 * smallest TemperatureMin, and the means of Temperature and Humidity.
 * Each is a loop over the forecast updating one accumulator; each loop is
 * proved against a function that states what the accumulator holds.
 */
module Reducers {
  import opened Observations

  /** The largest value of `xs`, scanned left to right from -Inf and replaced
      by every strictly greater value; -Inf when `xs` is empty. */
  function Largest(xs: seq<real>): (m: Float64)
    ensures xs == [] ==> m == NegInf
    ensures xs != [] ==> m.Finite? && m.v in xs
    ensures xs != [] ==> forall i :: 0 <= i < |xs| ==> xs[i] <= m.v
  {
    if xs == [] then NegInf
    else
      var sofar := Largest(xs[..|xs| - 1]);
      var x := xs[|xs| - 1];
      assert xs == xs[..|xs| - 1] + [x];
      if Exceeds(x, sofar) then Finite(x) else sofar
  }

  /** The smallest value of `xs`, scanned left to right from +Inf and replaced
      by every strictly smaller value; +Inf when `xs` is empty. */
  function Smallest(xs: seq<real>): (m: Float64)
    ensures xs == [] ==> m == PosInf
    ensures xs != [] ==> m.Finite? && m.v in xs
    ensures xs != [] ==> forall i :: 0 <= i < |xs| ==> m.v <= xs[i]
  {
    if xs == [] then PosInf
    else
      var sofar := Smallest(xs[..|xs| - 1]);
      var x := xs[|xs| - 1];
      assert xs == xs[..|xs| - 1] + [x];
      if Undercuts(x, sofar) then Finite(x) else sofar
  }

  /** The sum of `xs`, added left to right from 0. */
  function Sum(xs: seq<real>): real
  {
    if xs == [] then 0.0 else Sum(xs[..|xs| - 1]) + xs[|xs| - 1]
  }

  /** The float64 mean: the sum divided by the count, NaN for no values. */
  function Mean(xs: seq<real>): Float64
  {
    Quotient(Sum(xs), |xs|)
  }

  /** Values that all lie in [lo, hi] sum to between |xs|*lo and |xs|*hi. */
  lemma {:induction false} SumBetween(xs: seq<real>, lo: real, hi: real)
    requires forall i :: 0 <= i < |xs| ==> lo <= xs[i] <= hi
    ensures |xs| as real * lo <= Sum(xs) <= |xs| as real * hi
  {
    if xs != [] {
      var front, x := xs[..|xs| - 1], xs[|xs| - 1];
      assert forall i :: 0 <= i < |front| ==> front[i] == xs[i];
      SumBetween(front, lo, hi);
      var m := |front| as real;
      assert Sum(xs) == Sum(front) + x;
      assert lo <= x <= hi;
      assert |xs| as real == m + 1.0;
      assert (m + 1.0) * lo == m * lo + lo;
      assert (m + 1.0) * hi == m * hi + hi;
    }
  }

  /** The mean of a non-empty sequence is finite and lies between any lower
      and upper bound of its values. */
  lemma MeanBetween(xs: seq<real>, lo: real, hi: real)
    requires xs != []
    requires forall i :: 0 <= i < |xs| ==> lo <= xs[i] <= hi
    ensures Mean(xs).Finite? && lo <= Mean(xs).v <= hi
  {
    var n := |xs| as real;
    SumBetween(xs, lo, hi);
    assert Mean(xs).v == Sum(xs) / n;
    assert n * lo / n == lo;
    assert n * hi / n == hi;
  }

  /** The mean of readings that all equal `c` is `c`; in particular the mean
      of a single reading is that reading. */
  lemma MeanOfConstant(xs: seq<real>, c: real)
    requires xs != []
    requires forall i :: 0 <= i < |xs| ==> xs[i] == c
    ensures Mean(xs) == Finite(c)
  {
    MeanBetween(xs, c, c);
  }

  /** MaximumTemperature: the largest TemperatureMax of the forecast, or the
      -Inf sentinel for an empty forecast. */
  method MaximumTemperature(f: Forecast) returns (max: Float64)
    ensures max == Largest(TemperatureMaxes(f))
    ensures f == [] ==> max == NegInf
    ensures f != [] ==> max.Finite? && exists i :: 0 <= i < |f| && f[i].temperatureMax == max.v
    ensures f != [] ==> forall i :: 0 <= i < |f| ==> f[i].temperatureMax <= max.v
  {
    ghost var xs := TemperatureMaxes(f);
    max := NegInf;
    for i := 0 to |f|
      invariant max == Largest(xs[..i])
    {
      assert xs[..i + 1][..i] == xs[..i];
      if Exceeds(f[i].temperatureMax, max) {
        max := Finite(f[i].temperatureMax);
      }
    }
    assert xs[..|f|] == xs;
    assert forall i :: 0 <= i < |f| ==> xs[i] == f[i].temperatureMax;
  }

  /** MinimumTemperature: the smallest TemperatureMin of the forecast, or the
      +Inf sentinel for an empty forecast. */
  method MinimumTemperature(f: Forecast) returns (min: Float64)
    ensures min == Smallest(TemperatureMins(f))
    ensures f == [] ==> min == PosInf
    ensures f != [] ==> min.Finite? && exists i :: 0 <= i < |f| && f[i].temperatureMin == min.v
    ensures f != [] ==> forall i :: 0 <= i < |f| ==> min.v <= f[i].temperatureMin
  {
    ghost var xs := TemperatureMins(f);
    min := PosInf;
    for i := 0 to |f|
      invariant min == Smallest(xs[..i])
    {
      assert xs[..i + 1][..i] == xs[..i];
      if Undercuts(f[i].temperatureMin, min) {
        min := Finite(f[i].temperatureMin);
      }
    }
    assert xs[..|f|] == xs;
    assert forall i :: 0 <= i < |f| ==> xs[i] == f[i].temperatureMin;
  }

  /** AverageTemperature: the sum of the Temperature readings divided by
      their count; NaN (0/0) for an empty forecast. */
  method AverageTemperature(f: Forecast) returns (avg: Float64)
    ensures avg == Mean(Temperatures(f))
    ensures f == [] ==> avg == NaN
    ensures f != [] ==> avg.Finite? && avg.v == Sum(Temperatures(f)) / |f| as real
  {
    ghost var xs := Temperatures(f);
    var temp := 0.0;
    for i := 0 to |f|
      invariant temp == Sum(xs[..i])
    {
      assert xs[..i + 1][..i] == xs[..i];
      temp := temp + f[i].temperature;
    }
    assert xs[..|f|] == xs;
    avg := Quotient(temp, |f|);
  }

  /** AverageHumidity: the sum of the Humidity readings divided by their
      count; NaN (0/0) for an empty forecast. */
  method AverageHumidity(f: Forecast) returns (avg: Float64)
    ensures avg == Mean(Humidities(f))
    ensures f == [] ==> avg == NaN
    ensures f != [] ==> avg.Finite? && avg.v == Sum(Humidities(f)) / |f| as real
  {
    ghost var xs := Humidities(f);
    var hum := 0.0;
    for i := 0 to |f|
      invariant hum == Sum(xs[..i])
    {
      assert xs[..i + 1][..i] == xs[..i];
      hum := hum + f[i].humidity;
    }
    assert xs[..|f|] == xs;
    avg := Quotient(hum, |f|);
  }
}
