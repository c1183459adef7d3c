/**
 * The record shape of the weather client: one reading (`Weather`), a
 * sequence of readings (`Forecast`), and the float64 values the reducers
 * can return, with the infinities and NaN spelled out.
 */
module Observations {

  /** A calendar day written as the number YYYYMMDD: the "20060102" layout of
      the day key, read as a number. Years have at most four digits, so every
      key fits in eight digits, and numeric order on these numbers is the
      same as text order on the eight-digit strings. */
  type DayKey = k: nat | k < 100000000

  /** The name of a time-zone location; zone rules are not modelled. */
  type Zone = string

  /** Seconds elapsed since local midnight. */
  type ClockSeconds = s: nat | s < 86400

  /** An instant as its own zone sees it: the calendar day there, the time of
      day there, and the zone itself. */
  datatype Time = Time(day: DayKey, clock: ClockSeconds, zone: Zone)

  /** One reading. A daily summary has the same shape. */
  datatype Weather = Weather(
    date: Time,
    temperature: real,
    temperatureMin: real,
    temperatureMax: real,
    humidity: real)

  type Forecast = seq<Weather>

  /** The bucket key of a reading: its date formatted as a calendar day in
      its own zone. */
  function Key(w: Weather): DayKey
  {
    w.date.day
  }

  /** A day key parsed back as the midnight that starts it in `zone`. */
  function Midnight(key: DayKey, zone: Zone): Time
  {
    Time(key, 0, zone)
  }

  /** The day keys of a forecast, position by position. */
  function Days(f: Forecast): seq<DayKey>
  {
    seq(|f|, i requires 0 <= i < |f| => Key(f[i]))
  }

  function Temperatures(f: Forecast): seq<real>
  {
    seq(|f|, i requires 0 <= i < |f| => f[i].temperature)
  }

  function TemperatureMins(f: Forecast): seq<real>
  {
    seq(|f|, i requires 0 <= i < |f| => f[i].temperatureMin)
  }

  function TemperatureMaxes(f: Forecast): seq<real>
  {
    seq(|f|, i requires 0 <= i < |f| => f[i].temperatureMax)
  }

  function Humidities(f: Forecast): seq<real>
  {
    seq(|f|, i requires 0 <= i < |f| => f[i].humidity)
  }

  /** The values a float64 reducer result can take, rounding abstracted away:
      a finite value, one of the two infinities, or NaN. */
  datatype Float64 = NegInf | Finite(v: real) | PosInf | NaN

  /** The float64 comparison `x > y` for a finite `x`. */
  predicate Exceeds(x: real, y: Float64)
  {
    match y
    case NegInf => true
    case Finite(v) => x > v
    case PosInf => false
    case NaN => false
  }

  /** The float64 comparison `x < y` for a finite `x`. */
  predicate Undercuts(x: real, y: Float64)
  {
    match y
    case NegInf => false
    case Finite(v) => x < v
    case PosInf => true
    case NaN => false
  }

  /** The float64 quotient `x / float64(n)`: dividing by a zero count gives
      NaN for a zero numerator and a signed infinity otherwise. */
  function Quotient(x: real, n: nat): Float64
  {
    if n > 0 then Finite(x / n as real)
    else if x == 0.0 then NaN
    else if x > 0.0 then PosInf
    else NegInf
  }
}
