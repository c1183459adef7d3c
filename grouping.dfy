/**
 * Grouping a forecast by calendar day: the set of day keys, the bucket of
 * each key, the keys in the order they are first met, and the key sort.
 */
module Grouping {
  import opened Observations

  predicate Distinct(s: seq<DayKey>)
  {
    forall i, j :: 0 <= i < j < |s| ==> s[i] != s[j]
  }

  predicate Sorted(s: seq<DayKey>)
  {
    forall i, j :: 0 <= i < j < |s| ==> s[i] <= s[j]
  }

  predicate StrictlyIncreasing(s: seq<DayKey>)
  {
    forall i, j :: 0 <= i < j < |s| ==> s[i] < s[j]
  }

  /** The day keys present in `f`. */
  function KeySet(f: Forecast): set<DayKey>
  {
    if f == [] then {} else KeySet(f[..|f| - 1]) + {Key(f[|f| - 1])}
  }

  /** A key is present exactly when some reading has it. */
  lemma {:induction false} KeySetMembers(f: Forecast)
    ensures forall k :: k in KeySet(f) <==> k in Days(f)
  {
    if f != [] {
      DaysOfFront(f);
      KeySetMembers(f[..|f| - 1]);
    }
  }

  /** The bucket of day `key`: the readings of `f` with that key, in the
      order `f` holds them (each is appended as it is met). */
  function Bucket(f: Forecast, key: DayKey): Forecast
  {
    if f == [] then []
    else
      var front, w := f[..|f| - 1], f[|f| - 1];
      assert f == front + [w];
      Bucket(front, key) + (if Key(w) == key then [w] else [])
  }

  /** Extending a prefix of `f` by one reading extends the key set, the
      first-seen keys and the bucket of that reading's day, and nothing else. */
  lemma PrefixStep(f: Forecast, i: nat)
    requires i < |f|
    ensures KeySet(f[..i + 1]) == KeySet(f[..i]) + {Key(f[i])}
    ensures FirstSeen(f[..i + 1])
         == if Key(f[i]) in KeySet(f[..i]) then FirstSeen(f[..i]) else FirstSeen(f[..i]) + [Key(f[i])]
    ensures forall k ::
      Bucket(f[..i + 1], k) ==
      Bucket(f[..i], k) + (if Key(f[i]) == k then [f[i]] else [])
  {
    assert f[..i + 1][..i] == f[..i];
  }

  /** A reading is in the bucket of `key` exactly when it is in `f` and has
      that key: every reading lands in the bucket of its own day, and in no
      other. A bucket is empty exactly when no reading has its key. */
  lemma {:induction false} BucketMembers(f: Forecast, key: DayKey)
    ensures forall w :: w in Bucket(f, key) <==> w in f && Key(w) == key
    ensures Bucket(f, key) != [] <==> key in KeySet(f)
  {
    if f != [] {
      var front, w := f[..|f| - 1], f[|f| - 1];
      assert f == front + [w];
      BucketMembers(front, key);
    }
  }

  /** Bucketing keeps encounter order: the bucket of a forecast split in two
      is the bucket of the earlier part followed by that of the later part. */
  lemma {:induction false} BucketAppend(f: Forecast, g: Forecast, key: DayKey)
    ensures Bucket(f + g, key) == Bucket(f, key) + Bucket(g, key)
  {
    if g == [] {
      assert f + g == f;
    } else {
      var front, w := g[..|g| - 1], g[|g| - 1];
      BucketAppend(f, front, key);
      assert (f + g)[..|f + g| - 1] == f + front;
    }
  }

  /** The bucket of a key that some reading has is not empty. */
  lemma BucketNonEmpty(f: Forecast, key: DayKey)
    requires key in KeySet(f)
    ensures Bucket(f, key) != []
  {
    BucketMembers(f, key);
  }

  /** The distinct day keys of `f` in first-encounter order: a key is added
      only when no earlier reading has it. */
  function FirstSeen(f: Forecast): seq<DayKey>
  {
    if f == [] then []
    else
      var front, k := f[..|f| - 1], Key(f[|f| - 1]);
      if k in KeySet(front) then FirstSeen(front) else FirstSeen(front) + [k]
  }

  /** Every first-seen key is a key of some reading. */
  lemma FirstSeenPresent(f: Forecast)
    ensures forall k :: k in FirstSeen(f) ==> k in KeySet(f)
  {
    FirstSeenKeys(f);
  }

  /** The first-seen keys are pairwise different and are exactly the keys
      present, so there are as many of them as there are distinct days. */
  lemma {:induction false} FirstSeenKeys(f: Forecast)
    ensures Distinct(FirstSeen(f))
    ensures forall k :: k in FirstSeen(f) <==> k in KeySet(f)
    ensures |FirstSeen(f)| == |KeySet(f)|
  {
    if f != [] {
      var front, k := f[..|f| - 1], Key(f[|f| - 1]);
      FirstSeenKeys(front);
      if k in KeySet(front) {
        assert KeySet(f) == KeySet(front);
      } else {
        assert KeySet(f) == KeySet(front) + {k};
      }
    }
  }

  /** `k` placed into the sorted sequence `s` before the first element not
      below it. */
  function Insert(k: DayKey, s: seq<DayKey>): (r: seq<DayKey>)
    requires Sorted(s)
    ensures Sorted(r)
    ensures multiset(r) == multiset(s) + multiset{k} && |r| == |s| + 1
    ensures forall x :: x in r <==> x == k || x in s
  {
    if s == [] || k <= s[0] then [k] + s
    else
      var rest := Insert(k, s[1..]);
      assert s == [s[0]] + s[1..];
      assert forall j :: 0 <= j < |rest| ==> s[0] <= rest[j] by {
        forall j | 0 <= j < |rest| ensures s[0] <= rest[j] {
          assert rest[j] in rest;
        }
      }
      [s[0]] + rest
  }

  /** The key sort: ascending order of the day keys, text order on the
      eight-digit key strings being numeric order on the numbers. */
  function SortKeys(s: seq<DayKey>): (r: seq<DayKey>)
    ensures Sorted(r)
    ensures multiset(r) == multiset(s) && |r| == |s|
    ensures forall x :: x in r <==> x in s
  {
    if s == [] then []
    else
      assert s == [s[0]] + s[1..];
      Insert(s[0], SortKeys(s[1..]))
  }

  /** Inserting a new key into a strictly increasing sequence keeps it
      strictly increasing. */
  lemma {:induction false} InsertStrict(k: DayKey, s: seq<DayKey>)
    requires StrictlyIncreasing(s) && k !in s
    ensures StrictlyIncreasing(Insert(k, s))
  {
    if s != [] && k > s[0] {
      assert s == [s[0]] + s[1..];
      InsertStrict(k, s[1..]);
      var rest := Insert(k, s[1..]);
      assert forall j :: 0 <= j < |rest| ==> s[0] < rest[j] by {
        forall j | 0 <= j < |rest| ensures s[0] < rest[j] {
          assert rest[j] in rest;
        }
      }
    }
  }

  /** Sorting pairwise different keys gives a strictly increasing sequence. */
  lemma {:induction false} SortKeysStrict(s: seq<DayKey>)
    requires Distinct(s)
    ensures StrictlyIncreasing(SortKeys(s))
  {
    if s != [] {
      assert s == [s[0]] + s[1..];
      SortKeysStrict(s[1..]);
      InsertStrict(s[0], SortKeys(s[1..]));
    }
  }

  /** Sorting a sorted sequence leaves it as it is. */
  lemma {:induction false} SortKeysOfSorted(s: seq<DayKey>)
    requires Sorted(s)
    ensures SortKeys(s) == s
  {
    if s != [] {
      SortKeysOfSorted(s[1..]);
      assert s == [s[0]] + s[1..];
    }
  }

  /** Dropping the last reading drops the last day key. */
  lemma DaysOfFront(f: Forecast)
    requires f != []
    ensures Days(f) == Days(f[..|f| - 1]) + [Key(f[|f| - 1])]
  {
  }

  /** The last element of a sequence of pairwise different keys is not among
      the others, and the others are pairwise different. */
  lemma DistinctFront(s: seq<DayKey>)
    requires s != [] && Distinct(s)
    ensures Distinct(s[..|s| - 1]) && s[|s| - 1] !in s[..|s| - 1]
  {
    var front := s[..|s| - 1];
    forall i | 0 <= i < |front| ensures front[i] != s[|s| - 1] {
      assert front[i] == s[i];
    }
  }

  /** A forecast whose day keys are pairwise different meets its keys first
      in its own order. */
  lemma {:induction false} FirstSeenOfDistinct(f: Forecast)
    requires Distinct(Days(f))
    ensures FirstSeen(f) == Days(f)
  {
    if f != [] {
      var front, k := f[..|f| - 1], Key(f[|f| - 1]);
      DaysOfFront(f);
      DistinctFront(Days(f));
      FirstSeenOfDistinct(front);
      KeySetMembers(front);
    }
  }

  /** In a forecast whose day keys are pairwise different, each reading is
      alone in its bucket. */
  lemma {:induction false} BucketOfDistinct(f: Forecast, i: nat)
    requires Distinct(Days(f))
    requires i < |f|
    ensures Bucket(f, Key(f[i])) == [f[i]]
  {
    var front, last := f[..|f| - 1], f[|f| - 1];
    DaysOfFront(f);
    DistinctFront(Days(f));
    if i == |f| - 1 {
      KeySetMembers(front);
      BucketMembers(front, Key(last));
    } else {
      BucketOfDistinct(front, i);
      assert Days(front)[i] == Key(f[i]);
    }
  }

  /** The buckets of `keys`, concatenated in the order of `keys`. */
  function Regroup(f: Forecast, keys: seq<DayKey>): Forecast
  {
    if keys == [] then []
    else Regroup(f, keys[..|keys| - 1]) + Bucket(f, keys[|keys| - 1])
  }

  /** Appending a reading to the input adds it to the regrouped readings
      once if its key is listed (at most once), and not at all otherwise. */
  lemma {:induction false} RegroupSnoc(g: Forecast, w: Weather, keys: seq<DayKey>)
    requires multiset(keys)[Key(w)] <= 1
    ensures multiset(Regroup(g + [w], keys))
         == multiset(Regroup(g, keys)) + (if Key(w) in keys then multiset{w} else multiset{})
  {
    if keys != [] {
      var front, k := keys[..|keys| - 1], keys[|keys| - 1];
      assert keys == front + [k];
      RegroupSnoc(g, w, front);
      BucketSnoc(g, w, k);
    }
  }

  /** A key occurs at most once in a sequence of pairwise different keys. */
  lemma {:induction false} DistinctOnce(keys: seq<DayKey>, k: DayKey)
    requires Distinct(keys)
    ensures multiset(keys)[k] <= 1
  {
    if keys != [] {
      DistinctFront(keys);
      DistinctOnce(keys[..|keys| - 1], k);
      assert keys == keys[..|keys| - 1] + [keys[|keys| - 1]];
    }
  }

  lemma BucketSnoc(g: Forecast, w: Weather, k: DayKey)
    ensures multiset(Bucket(g + [w], k))
         == multiset(Bucket(g, k)) + (if Key(w) == k then multiset{w} else multiset{})
  {
    assert (g + [w])[..|g|] == g;
  }

  /** Regrouping by pairwise different keys that cover every key of `f`
      yields a permutation of `f`: the buckets partition the input. */
  lemma {:induction false} RegroupPermutation(f: Forecast, keys: seq<DayKey>)
    requires Distinct(keys)
    requires forall k :: k in KeySet(f) ==> k in keys
    ensures multiset(Regroup(f, keys)) == multiset(f)
  {
    if f == [] {
      RegroupOfEmpty(keys);
    } else {
      var g, w := f[..|f| - 1], f[|f| - 1];
      assert f == g + [w];
      assert Key(w) in KeySet(f);
      RegroupPermutation(g, keys);
      DistinctOnce(keys, Key(w));
      RegroupSnoc(g, w, keys);
    }
  }

  lemma {:induction false} RegroupOfEmpty(keys: seq<DayKey>)
    ensures Regroup([], keys) == []
  {
    if keys != [] {
      RegroupOfEmpty(keys[..|keys| - 1]);
    }
  }
}
