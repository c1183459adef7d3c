# Daily weather aggregation

A Dafny model of the daily aggregation in the weather client's
`weather.go`. The model covers two things:

- `Forecast.Daily`, which turns a flat forecast of readings into one summary
  per calendar day;
- the four reducers that `Daily` uses for each day: `MaximumTemperature`,
  `MinimumTemperature`, `AverageTemperature` and `AverageHumidity`.

It is split into four modules:

- `Observations` (`observations.dfy`) holds the data:
  - the `Weather` record, with a date and four readings;
  - a `Forecast` as a sequence of readings;
  - the abstract date: a calendar-day key, a time of day and a zone name;
  - `Float64`, the values a reducer can return: a finite value, `-Inf`,
    `+Inf` or `NaN`, spelled out explicitly.
- `Reducers` (`reducers.dfy`) holds the four reducers.
  - Each is a method with the same loop and accumulator as the source.
  - Each is proved against a specification function: `Largest`, `Smallest`
    or `Mean`.
- `Grouping` (`grouping.dfy`) holds the pure specifications of the first
  half of `Daily`:
  - `KeySet`, the day keys present;
  - `Bucket`, the readings of one day in input order;
  - `FirstSeen`, the keys in the order they are first met;
  - `SortKeys`, the key sort.
- `Aggregation` (`aggregation.dfy`) holds three things:
  - the `Daily` method with both of its loops;
  - the specification function `DailySummaries`, which `Daily` is proved to
    compute;
  - the lemmas that state what the daily forecast means.

The summaries' zone is deliberately reproduced as the code does it. Every
summary is dated at midnight of its day in the zone of the first reading of
the whole forecast, not in the zone of the readings of that day
(weather.go:155-159, 171). `DailyShape` states this.

Each reducer and `Daily` itself is a method with loops and invariants. Its
`ensures` ties the result to a specification function, and the lemmas
state the properties of that function.

## Model

| member | source | states |
|---|---|---|
| Observations.Key | weather.go:160 | No contract. By definition a reading's bucket key is the calendar day of its date in its own zone. KeySetMembers, BucketMembers and DailyShape state what follows from it. |
| Observations.Midnight | weather.go:171 | No contract. By definition a day key parsed back in a zone is midnight of that day there. DailyShape states that every summary carries it, in the first reading's zone. |
| Observations.Exceeds | weather.go:187 | No contract. By definition this is the float comparison `x > max` against the accumulator: always true against -Inf, and true against a finite value when x is greater. Largest's contract is what it yields. |
| Observations.Undercuts | weather.go:197 | No contract. By definition this is the float comparison `x < min` against the accumulator: always true against +Inf, and true against a finite value when x is smaller. Smallest's contract is what it yields. |
| Observations.Quotient | weather.go:209 | No contract. By definition this is division of a sum by a count: x/n for a non-zero count, and for a zero count NaN when x is 0 or an infinity of x's sign otherwise. The reducers' contracts state both cases. |
| Reducers.Sum | weather.go:205-208 | No contract. By definition this is the left-to-right sum from 0. SumBetween bounds it. |
| Reducers.Mean | weather.go:204-218 | No contract. By definition this is the Quotient of Sum by the count. MeanBetween and MeanOfConstant state its properties. |
| Reducers.Largest | weather.go:184-192 | The scan from -Inf, which keeps every strictly greater value, gives -Inf for no values. Otherwise it gives one of the values that is at least every value. |
| Reducers.Smallest | weather.go:194-202 | The scan from +Inf, which keeps every strictly smaller value, gives +Inf for no values. Otherwise it gives one of the values that is at most every value. |
| Reducers.MaximumTemperature | weather.go:184-192 | The loop returns Largest of the TemperatureMax readings. That is the -Inf sentinel for an empty forecast. Otherwise it is the TemperatureMax of some reading and is at least every reading's TemperatureMax. |
| Reducers.MinimumTemperature | weather.go:194-202 | The loop returns Smallest of the TemperatureMin readings. That is the +Inf sentinel for an empty forecast. Otherwise it is the TemperatureMin of some reading and is at most every reading's TemperatureMin. |
| Reducers.AverageTemperature | weather.go:204-210 | The loop returns the Temperature sum divided by the count. For an empty forecast that is 0/0 = NaN. |
| Reducers.AverageHumidity | weather.go:212-218 | The loop returns the Humidity sum divided by the count. For an empty forecast that is 0/0 = NaN. |
| Reducers.SumBetween | weather.go:204-218 | The sum of n values that all lie in [lo, hi] lies in [n*lo, n*hi]. |
| Reducers.MeanBetween | weather.go:204-218 | The mean of a non-empty sequence is finite and lies between any lower and any upper bound of its values. |
| Reducers.MeanOfConstant | weather.go:204-218 | The mean of values that all equal c is c. In particular, a single reading's average is its own value. |
| Grouping.KeySet | weather.go:161-164 | No contract. By definition this is the set of keys the map `days` holds once the forecast has been read. KeySetMembers characterises it. |
| Grouping.Bucket | weather.go:164 | No contract. By definition this is the readings of one day, appended in input order. BucketMembers, BucketAppend and BucketOfDistinct characterise it. |
| Grouping.FirstSeen | weather.go:161-163 | No contract. By definition this is the keys in the order they are first met, a key being appended only when no earlier reading has it. FirstSeenKeys and FirstSeenOfDistinct characterise it. |
| Grouping.KeySetMembers | weather.go:156-165 | A day key is in the key set exactly when some reading has that key. |
| Grouping.PrefixStep | weather.go:156-165 | This is a helper for GroupStep, not a separate property. It unfolds the definitions of KeySet, FirstSeen and Bucket by one reading, stated for the prefix `f[..i+1]` that the loop has read. |
| Grouping.BucketMembers | weather.go:161-164 | A reading is in the bucket of a key exactly when it is in the forecast and has that key. A bucket is non-empty exactly when its key is present. |
| Grouping.BucketAppend | weather.go:164 | Buckets keep encounter order: the bucket of f + g is the bucket of f followed by the bucket of g. |
| Grouping.FirstSeenKeys | weather.go:161-163 | The keys recorded on first encounter have no duplicates. They are exactly the keys present, and there are as many of them as there are distinct days. |
| Grouping.FirstSeenOfDistinct | weather.go:161-163 | When no two readings share a day, the recorded keys are the readings' keys in input order. |
| Grouping.BucketOfDistinct | weather.go:164 | When no two readings share a day, each reading is alone in its bucket. |
| Grouping.Insert | weather.go:166 | Inserting a key into a sorted sequence gives a sorted sequence that holds one more occurrence of that key and nothing else new. |
| Grouping.SortKeys | weather.go:166 | The key sort gives an ascending permutation of its input. |
| Grouping.InsertStrict | weather.go:166 | Inserting a new key into a strictly ascending sequence keeps it strictly ascending. |
| Grouping.SortKeysStrict | weather.go:166 | Sorting keys that are all different gives a strictly ascending sequence. |
| Grouping.SortKeysOfSorted | weather.go:166 | Sorting an already sorted key sequence leaves it unchanged. |
| Grouping.RegroupSnoc | weather.go:156-165 | When a key list holds the reading's key at most once, appending the reading adds it exactly once to the concatenated buckets if its key is listed, and not at all otherwise. |
| Grouping.RegroupPermutation | weather.go:156-165 | The buckets of distinct keys that cover every key present, concatenated, are a permutation of the input. |
| Aggregation.Summarize | weather.go:172-178 | The summary of a non-empty bucket is dated at midnight of its key in the given zone. Its Temperature and Humidity are the bucket's sums divided by its size. Its TemperatureMin is at most every reading's TemperatureMin and its TemperatureMax at least every reading's TemperatureMax, and each equals the value of some reading. |
| Aggregation.Summaries | weather.go:168-179 | One summary per key, so as many summaries as keys. |
| Aggregation.GroupStep | weather.go:156-165 | One pass of the first loop keeps its state exact. Afterwards `keys` is the first-seen order of the readings so far, the map's domain is their key set, and each entry is that key's bucket. |
| Aggregation.DailySummaries | weather.go:152-182 | This is the function Daily is proved to compute. It is empty for an empty forecast and has one summary per first-seen key. DailyShape, DailyPartition, DailyExtremes, DailyAverages and DailyIdempotent state the rest. |
| Aggregation.SummariesStep | weather.go:169-179 | One pass of the second loop appends the summary of the next key's non-empty bucket to the summaries built so far. |
| Aggregation.Daily | weather.go:152-182 | The two loops compute DailySummaries(f). The result is empty for an empty forecast and has one summary per distinct day. Its keys are strictly ascending and are exactly the input's day keys. |
| Aggregation.SummariesAt | weather.go:169-178 | The summary at position i is built from the bucket of the i-th key, and that bucket is non-empty. |
| Aggregation.SummariesKeys | weather.go:169-173 | The summaries carry the keys they were built for, in the same order. |
| Aggregation.DailyShape | weather.go:152-182 | An empty forecast gives an empty daily forecast. The daily forecast has one summary per distinct day key, its keys are strictly ascending and are exactly the input's keys, whatever the input order. Every summary is dated at midnight of its key in the first reading's zone. |
| Aggregation.DailyPartition | weather.go:156-169 | The buckets of the emitted days, concatenated in emitted order, are a permutation of the input, so every reading is summarised in exactly one day. |
| Aggregation.DailyExtremes | weather.go:172-178 | Each summary's TemperatureMax is at least the TemperatureMax of every reading of its day and equals one of them. Its TemperatureMin is at most every such TemperatureMin and equals one of them. |
| Aggregation.DailyAverages | weather.go:172-178 | Each summary's Temperature and Humidity are the sums of those fields over its non-empty bucket, divided by the bucket size. |
| Aggregation.SummarizeSingleton | weather.go:168-179 | A bucket holding one reading that is already at midnight of its day in the given zone summarises to that reading. |
| Aggregation.SummariesOfDaily | weather.go:168-179 | A forecast with one reading per day, in strictly ascending day order and all at midnight in one zone, is its own sequence of summaries. |
| Aggregation.DailyIdempotent | weather.go:152-182 | Aggregating a daily forecast again gives the same daily forecast. |

## Left out

- The HTTP client is not part of this model: `NewClient`, the client options, `makeRequest`, `GetForecast` and `GetCurrentWeather` (weather.go:33-148). It is network I/O and JSON decoding.
- The command-line program is not part of this model: it reads the environment and arguments, calls the network and prints (cmd/cli/main.go).
- Date formatting and parsing and the time-zone database are abstracted.
  - A date is modelled as its calendar day in its own zone (the number YYYYMMDD), a time of day, and a zone name.
  - Formatting with the "20060102" layout reads off that day.
  - Parsing the key back gives midnight of that day in the given zone.
  - The day-key type holds numbers below 100000000 only, so years beyond 9999 cannot occur in the model. For those years the code would order keys as text, unlike the numbers, and could not parse them back.
- Daily: the error returned when the key is parsed back is ignored by the code (weather.go:171). The model cannot produce one, because a key made by formatting always parses.
- IEEE-754 arithmetic is not modelled.
  - Readings are real numbers, so sums are exact, with no rounding.
  - NaN and infinite readings as inputs are not modelled.
  - The reducers' results keep the float sentinels: -Inf and +Inf for the extremes of an empty forecast, and NaN for the 0/0 averages.
- Grouping.SortKeys: the key sort is modelled as a pure function on the sequence, not as the library's in-place sort. Only its result (ascending, a permutation) is modelled.
- Daily: the map's iteration order plays no part, because the code reads the map only by key. The map is a Dafny `map` that the loop reassigns.
