/**
 * `get_date_normalized_wiki_count` (make_figures.py, lines 142-198): an
 * article's daily counts aggregated over the windows between consecutive
 * ground-truth dates (shifted by an offset) and divided by the project's
 * total accesses in the same window.
 */
module Normalization {
  import opened Wrappers
  import opened OrderedMaps
  import opened Loading

  /**
   * Which date a window's counts are attributed to: its start (`after`, the
   * default) or its end (`before`).
   */
  datatype AggregatePeriod = Before | After

  datatype NormalizeError =
    | TooFewDates                // `next` on an exhausted iterator (lines 153, 155)
    | MissingArticleDay(day: Day) // KeyError on line 187 or 193
    | MissingTotalDay(day: Day)   // KeyError on line 188 or 194

  predicate StrictlyIncreasing(s: seq<Day>)
  {
    forall i, j :: 0 <= i < j < |s| ==> s[i] < s[j]
  }

  /**
   * Line 149: the ground-truth dates shifted by `offset`, in ground-truth
   * order, that are days of the article's map.
   */
  function MatchedDates(truthDates: seq<Day>, article: map<Day, int>, offset: int): (m: seq<Day>)
    ensures |m| <= |truthDates|
    decreases |truthDates|
  {
    if truthDates == [] then []
    else
      (if truthDates[0] + offset in article then [truthDates[0] + offset] else [])
      + MatchedDates(truthDates[1..], article, offset)
  }

  /** The matched dates are the days of the article that are shifted ground-truth dates. */
  lemma {:induction false} MatchedDatesMembers(truthDates: seq<Day>, article: map<Day, int>, offset: int)
    ensures forall d :: d in MatchedDates(truthDates, article, offset) <==> d in article && d - offset in truthDates
    decreases |truthDates|
  {
    if truthDates != [] {
      var rest := truthDates[1..];
      MatchedDatesMembers(rest, article, offset);
      var head := if truthDates[0] + offset in article then [truthDates[0] + offset] else [];
      assert MatchedDates(truthDates, article, offset) == head + MatchedDates(rest, article, offset);
      forall t ensures t in truthDates <==> t == truthDates[0] || t in rest {
        assert truthDates == [truthDates[0]] + rest;
      }
    }
  }

  /** Sorted ground truth gives sorted matched dates, whatever the offset. */
  lemma {:induction false} MatchedDatesIncreasing(truthDates: seq<Day>, article: map<Day, int>, offset: int)
    requires StrictlyIncreasing(truthDates)
    ensures StrictlyIncreasing(MatchedDates(truthDates, article, offset))
    decreases |truthDates|
  {
    if truthDates != [] {
      var rest := MatchedDates(truthDates[1..], article, offset);
      MatchedDatesIncreasing(truthDates[1..], article, offset);
      MatchedDatesMembers(truthDates[1..], article, offset);
      forall k | 0 <= k < |rest| ensures truthDates[0] + offset < rest[k] {
        assert rest[k] in rest;
        var i :| 0 <= i < |truthDates[1..]| && truthDates[1..][i] == rest[k] - offset;
        assert truthDates[i + 1] == rest[k] - offset;
      }
    }
  }

  /** The sum of `m[c]` over the days `c` of `[lo, hi)`, a missing day as 0. */
  function WindowSum(m: map<Day, int>, lo: Day, hi: Day): int
    decreases hi - lo
  {
    if hi <= lo then 0 else WindowSum(m, lo, hi - 1) + Get0(m, hi - 1)
  }

  /** Lines 164-172: the quotient, or 0 when the denominator is 0. */
  function Ratio(count: int, total: int): (r: real)
    ensures total == 0 ==> r == 0.0
    ensures total != 0 ==> r * (total as real) == count as real
  {
    if total == 0 then 0.0 else count as real / total as real
  }

  /** The date window `i`, that is `[dates[i], dates[i + 1])`, is attributed to. */
  function WindowKey(dates: seq<Day>, mode: AggregatePeriod, i: nat): Day
    requires i + 1 < |dates|
  {
    if mode == After then dates[i] else dates[i + 1]
  }

  /** The normalised value of window `i`. */
  function WindowRatio(dates: seq<Day>, article: map<Day, int>, total: map<Day, int>, i: nat): real
    requires i + 1 < |dates|
  {
    Ratio(WindowSum(article, dates[i], dates[i + 1]), WindowSum(total, dates[i], dates[i + 1]))
  }

  /** The series after the first `j` windows have been finalised. */
  function Buckets(dates: seq<Day>, article: map<Day, int>, total: map<Day, int>,
                   mode: AggregatePeriod, j: nat): OrderedMap<Day, real>
    requires j < |dates|
  {
    if j == 0 then Empty()
    else Buckets(dates, article, total, mode, j - 1).Set(WindowKey(dates, mode, j - 1), WindowRatio(dates, article, total, j - 1))
  }

  /**
   * The series while window `j` has been filled up to, not including, day
   * `c`: the finished windows and, once a day was added, the running count
   * of window `j`.
   */
  function Running(dates: seq<Day>, article: map<Day, int>, total: map<Day, int>,
                   mode: AggregatePeriod, j: nat, c: Day): OrderedMap<Day, real>
    requires j + 1 < |dates|
  {
    var b := Buckets(dates, article, total, mode, j);
    if c == dates[j] then b else b.Set(WindowKey(dates, mode, j), WindowSum(article, dates[j], c) as real)
  }

  /**
   * The first day of `[lo, hi)`, walking upwards, that the article's map or
   * (checked second) the project's map lacks.
   */
  function FirstMissing(article: map<Day, int>, total: map<Day, int>, lo: Day, hi: Day): Option<NormalizeError>
    decreases hi - lo
  {
    if hi <= lo then None
    else if lo !in article then Some(MissingArticleDay(lo))
    else if lo !in total then Some(MissingTotalDay(lo))
    else FirstMissing(article, total, lo + 1, hi)
  }

  /**
   * No day is missing exactly when every day of `[lo, hi)` is in both maps;
   * otherwise the error names the first missing day, and the article's map
   * is blamed when it lacks that day.
   */
  lemma {:induction false} FirstMissingSpec(article: map<Day, int>, total: map<Day, int>, lo: Day, hi: Day)
    ensures var e := FirstMissing(article, total, lo, hi);
            && (e.None? <==> forall c :: lo <= c < hi ==> c in article && c in total)
            && (e.Some? ==> && !e.value.TooFewDates?
                            && lo <= e.value.day < hi
                            && (forall c :: lo <= c < e.value.day ==> c in article && c in total)
                            && (e.value.MissingArticleDay? <==> e.value.day !in article)
                            && (e.value.MissingTotalDay? ==> e.value.day !in total))
    decreases hi - lo
  {
    if lo < hi && lo in article && lo in total {
      FirstMissingSpec(article, total, lo + 1, hi);
    }
  }

  /**
   * The walk's result at the shifted dates: `StopIteration` exactly when
   * there are fewer than two, and otherwise a KeyError names a day of the
   * span, blaming the article's map when that lacks the day.
   */
  function Walked(dates: seq<Day>, article: map<Day, int>, total: map<Day, int>,
                  mode: AggregatePeriod): (r: Result<OrderedMap<Day, real>, NormalizeError>)
    ensures r == Err(TooFewDates) <==> |dates| < 2
    ensures r.Err? && !r.error.TooFewDates? ==>
              && dates[0] <= r.error.day < dates[|dates| - 1]
              && (r.error.MissingArticleDay? <==> r.error.day !in article)
              && (r.error.MissingTotalDay? ==> r.error.day !in total)
  {
    if |dates| < 2 then Err(TooFewDates)
    else
      FirstMissingSpec(article, total, dates[0], dates[|dates| - 1]);
      match FirstMissing(article, total, dates[0], dates[|dates| - 1])
      case Some(e) => Err(e)
      case None => Ok(Buckets(dates, article, total, mode, |dates| - 1))
  }

  /**
   * What `get_date_normalized_wiki_count(project, article, offset)` returns
   * for the article's and the project's daily maps.
   */
  function Normalized(truthDates: seq<Day>, article: map<Day, int>, total: map<Day, int>,
                      offset: int, mode: AggregatePeriod): (r: Result<OrderedMap<Day, real>, NormalizeError>)
    ensures r == Err(TooFewDates) <==> |MatchedDates(truthDates, article, offset)| < 2
    ensures r.Err? && r.error.MissingArticleDay? ==> r.error.day !in article
    ensures r.Err? && r.error.MissingTotalDay? ==> r.error.day in article && r.error.day !in total
  {
    Walked(MatchedDates(truthDates, article, offset), article, total, mode)
  }

  /**
   * The state of the walk within window `j` before day `c`: the days so far
   * are in both maps, `acc` is the project's count over them, and the series
   * holds the finished windows and the article's running count.
   */
  ghost predicate Walking(dates: seq<Day>, article: map<Day, int>, total: map<Day, int>, mode: AggregatePeriod,
                          j: nat, c: Day, acc: int, series: OrderedMap<Day, real>)
  {
    && StrictlyIncreasing(dates) && j + 1 < |dates|
    && dates[j] <= c <= dates[j + 1]
    && acc == WindowSum(total, dates[j], c)
    && series == Running(dates, article, total, mode, j, c)
    && FirstMissing(article, total, dates[0], dates[|dates| - 1]) == FirstMissing(article, total, c, dates[|dates| - 1])
  }

  /**
   * Closing window `j` on reaching its end date (lines 161-179): the walk
   * goes on in window `j + 1`, or it is over and the series is the result.
   */
  lemma WalkClose(dates: seq<Day>, article: map<Day, int>, total: map<Day, int>, mode: AggregatePeriod,
                  j: nat, acc: int, series: OrderedMap<Day, real>)
    requires j + 1 < |dates| && Walking(dates, article, total, mode, j, dates[j + 1], acc, series)
    ensures var key := WindowKey(dates, mode, j);
            && key in series.entries
            && var closed := series.Set(key, if acc != 0 then series.entries[key] / acc as real else 0.0);
               && (j + 2 < |dates| ==> Walking(dates, article, total, mode, j + 1, dates[j + 1], 0, closed))
               && (j + 2 == |dates| ==> Walked(dates, article, total, mode) == Ok(closed))
  {
    FinalizeStep(dates, article, total, mode, j, acc, series);
  }

  /**
   * Taking day `c` of window `j` (lines 181-196): a day the article's map
   * lacks, or then the project's, ends the walk with that error; otherwise
   * the day is counted.
   */
  lemma WalkDay(dates: seq<Day>, article: map<Day, int>, total: map<Day, int>, mode: AggregatePeriod,
                j: nat, c: Day, acc: int, series: OrderedMap<Day, real>)
    requires Walking(dates, article, total, mode, j, c, acc, series) && c < dates[j + 1]
    ensures c !in article ==> Walked(dates, article, total, mode) == Err(MissingArticleDay(c))
    ensures c in article ==>
              var key := WindowKey(dates, mode, j);
              var started := if key !in series.entries then series.Set(key, 0.0) else series;
              && key in started.entries
              && var added := started.Set(key, started.entries[key] + article[c] as real);
                 && (c !in total ==> Walked(dates, article, total, mode) == Err(MissingTotalDay(c)))
                 && (c in total ==> Walking(dates, article, total, mode, j, c + 1, acc + total[c], added))
  {
    if c in article {
      AccumulateStep(dates, article, total, mode, j, c, series);
    }
  }

  // ---------------------------------------------------------------------
  // The walk itself
  // ---------------------------------------------------------------------

  /**
   * `get_date_normalized_wiki_count` (lines 142-198): the matched dates are
   * computed, the first two are taken from their iterator, and the windows
   * between them are walked.
   */
  method NormalizeWalk(truth: OrderedMap<Day, real>, article: map<Day, int>, total: map<Day, int>,
                       offset: int, mode: AggregatePeriod)
    returns (r: Result<OrderedMap<Day, real>, NormalizeError>)
    requires StrictlyIncreasing(MatchedDates(truth.keys, article, offset))
    ensures r == Normalized(truth.keys, article, total, offset, mode)
  {
    var dates := MatchedDates(truth.keys, article, offset);
    if |dates| < 2 {
      // `next` raises StopIteration on line 153 or 155
      return Err(TooFewDates);
    }
    r := WalkWindows(dates, article, total, mode);
  }

  /**
   * The loop of lines 159-196 over at least two strictly increasing dates:
   * each day from the first date on is added to the running window until
   * the next date is reached, which closes the window.
   */
  method WalkWindows(dates: seq<Day>, article: map<Day, int>, total: map<Day, int>, mode: AggregatePeriod)
    returns (r: Result<OrderedMap<Day, real>, NormalizeError>)
    requires StrictlyIncreasing(dates) && |dates| >= 2
    ensures r == Walked(dates, article, total, mode)
  {
    // `j` is the position of `startDate` in the iterator over `dates`
    var j := 0;
    var startDate := dates[0];
    var currentDate := startDate;
    var nextDate: Option<Day> := Some(dates[1]);
    var lastDate := dates[|dates| - 1];
    var series: OrderedMap<Day, real> := Empty();
    var projectAccesses := 0;
    while startDate <= lastDate
      invariant 0 <= j < |dates| - 1
      invariant startDate == dates[j] && nextDate == Some(dates[j + 1])
      invariant Walking(dates, article, total, mode, j, currentDate, projectAccesses, series)
      decreases lastDate - currentDate
    {
      if nextDate == Some(currentDate) {
        // the window is complete: normalise it and move to the next one
        var key := if mode == After then startDate else nextDate.value;
        assert key == WindowKey(dates, mode, j);
        WalkClose(dates, article, total, mode, j, projectAccesses, series);
        series := series.Set(key, if projectAccesses != 0 then series.entries[key] / projectAccesses as real else 0.0);
        startDate := nextDate.value;
        j := j + 1;
        nextDate := if j + 1 < |dates| then Some(dates[j + 1]) else None;
        projectAccesses := 0;
        if nextDate.None? {
          break;
        }
      }
      // add this day's counts to the current window
      var key := if mode == After then startDate else nextDate.value;
      assert key == WindowKey(dates, mode, j);
      WalkDay(dates, article, total, mode, j, currentDate, projectAccesses, series);
      if currentDate !in article {
        return Err(MissingArticleDay(currentDate));
      }
      series := if key !in series.entries then series.Set(key, 0.0) else series;
      series := series.Set(key, series.entries[key] + article[currentDate] as real);
      if currentDate !in total {
        return Err(MissingTotalDay(currentDate));
      }
      projectAccesses := projectAccesses + total[currentDate];
      currentDate := currentDate + 1;
    }
    return Ok(series);
  }

  // ---------------------------------------------------------------------
  // Properties of the normalised series
  // ---------------------------------------------------------------------

  lemma WindowKeysIncreasing(dates: seq<Day>, mode: AggregatePeriod, i: nat, j: nat)
    requires StrictlyIncreasing(dates)
    requires i < j && j + 1 < |dates|
    ensures WindowKey(dates, mode, i) < WindowKey(dates, mode, j)
  {
  }

  /** After `j` windows the series holds one entry per window, in window order. */
  lemma BucketsShape(dates: seq<Day>, article: map<Day, int>, total: map<Day, int>,
                     mode: AggregatePeriod, j: nat)
    requires StrictlyIncreasing(dates) && j < |dates|
    ensures Buckets(dates, article, total, mode, j).Valid()
    ensures |Buckets(dates, article, total, mode, j).keys| == j
    ensures forall i :: 0 <= i < j ==> Buckets(dates, article, total, mode, j).keys[i] == WindowKey(dates, mode, i)
    ensures forall i :: 0 <= i < j ==>
              Buckets(dates, article, total, mode, j).entries[WindowKey(dates, mode, i)]
              == WindowRatio(dates, article, total, i)
  {
    BucketsKeys(dates, article, total, mode, j);
    BucketsValues(dates, article, total, mode, j);
  }

  /** After `j` windows the keys are the dates of the first `j` windows, in window order. */
  lemma {:induction false} BucketsKeys(dates: seq<Day>, article: map<Day, int>, total: map<Day, int>,
                                       mode: AggregatePeriod, j: nat)
    requires StrictlyIncreasing(dates) && j < |dates|
    ensures Buckets(dates, article, total, mode, j).Valid()
    ensures |Buckets(dates, article, total, mode, j).keys| == j
    ensures forall i :: 0 <= i < j ==> Buckets(dates, article, total, mode, j).keys[i] == WindowKey(dates, mode, i)
    decreases j
  {
    if j > 0 {
      var previous := Buckets(dates, article, total, mode, j - 1);
      BucketsKeys(dates, article, total, mode, j - 1);
      var key := WindowKey(dates, mode, j - 1);
      forall i | 0 <= i < j - 1 ensures previous.keys[i] != key {
        WindowKeysIncreasing(dates, mode, i, j - 1);
      }
      AppendKey(previous, key, WindowRatio(dates, article, total, j - 1));
    }
  }

  /** The window dates of the series increase. */
  lemma BucketsIncreasing(dates: seq<Day>, article: map<Day, int>, total: map<Day, int>,
                          mode: AggregatePeriod, j: nat)
    requires StrictlyIncreasing(dates) && j < |dates|
    ensures StrictlyIncreasing(Buckets(dates, article, total, mode, j).keys)
  {
    var keys := Buckets(dates, article, total, mode, j).keys;
    BucketsKeys(dates, article, total, mode, j);
    forall a, b | 0 <= a < b < |keys| ensures keys[a] < keys[b] {
      WindowKeysIncreasing(dates, mode, a, b);
    }
  }

  /** A key not yet present goes to the end. */
  lemma AppendKey(d: OrderedMap<Day, real>, k: Day, v: real)
    requires d.Valid() && k !in d.keys
    ensures d.Set(k, v).Valid() && d.Set(k, v).keys == d.keys + [k]
  {
  }

  /** After `j` windows the entry of each window's date is that window's normalised value. */
  lemma {:induction false} BucketsValues(dates: seq<Day>, article: map<Day, int>, total: map<Day, int>,
                                         mode: AggregatePeriod, j: nat)
    requires StrictlyIncreasing(dates) && j < |dates|
    ensures forall i :: 0 <= i < j ==>
              WindowKey(dates, mode, i) in Buckets(dates, article, total, mode, j).entries &&
              Buckets(dates, article, total, mode, j).entries[WindowKey(dates, mode, i)]
              == WindowRatio(dates, article, total, i)
    decreases j
  {
    if j > 0 {
      BucketsValues(dates, article, total, mode, j - 1);
      var previous := Buckets(dates, article, total, mode, j - 1).entries;
      var key := WindowKey(dates, mode, j - 1);
      var entries := previous[key := WindowRatio(dates, article, total, j - 1)];
      assert Buckets(dates, article, total, mode, j).entries == entries;
      forall i | 0 <= i < j - 1 ensures WindowKey(dates, mode, i) != key {
        WindowKeysIncreasing(dates, mode, i, j - 1);
      }
    }
  }

  /** The date of window `j` is not yet a key of the series before it. */
  lemma WindowKeyFresh(dates: seq<Day>, article: map<Day, int>, total: map<Day, int>,
                       mode: AggregatePeriod, j: nat)
    requires StrictlyIncreasing(dates) && j + 1 < |dates|
    ensures Buckets(dates, article, total, mode, j).Valid()
    ensures WindowKey(dates, mode, j) !in Buckets(dates, article, total, mode, j).entries
  {
    var b := Buckets(dates, article, total, mode, j);
    BucketsShape(dates, article, total, mode, j);
    forall i | 0 <= i < j ensures b.keys[i] != WindowKey(dates, mode, j) {
      WindowKeysIncreasing(dates, mode, i, j);
    }
  }

  /** Closing window `j`: its running count is replaced by the normalised value. */
  lemma FinalizeStep(dates: seq<Day>, article: map<Day, int>, total: map<Day, int>, mode: AggregatePeriod,
                     j: nat, projectAccesses: int, series: OrderedMap<Day, real>)
    requires StrictlyIncreasing(dates) && j + 1 < |dates|
    requires projectAccesses == WindowSum(total, dates[j], dates[j + 1])
    requires series == Running(dates, article, total, mode, j, dates[j + 1])
    ensures var key := WindowKey(dates, mode, j);
            && key in series.entries
            && series.Set(key, if projectAccesses != 0 then series.entries[key] / projectAccesses as real else 0.0)
               == Buckets(dates, article, total, mode, j + 1)
  {
    var b := Buckets(dates, article, total, mode, j);
    BucketsShape(dates, article, total, mode, j);
    var key := WindowKey(dates, mode, j);
    var count := WindowSum(article, dates[j], dates[j + 1]) as real;
    assert series == b.Set(key, count);
    SetTwice(b, key, count, WindowRatio(dates, article, total, j));
  }

  /** Adding day `c` to the running count of window `j` (lines 183-194). */
  lemma AccumulateStep(dates: seq<Day>, article: map<Day, int>, total: map<Day, int>, mode: AggregatePeriod,
                       j: nat, c: Day, series: OrderedMap<Day, real>)
    requires StrictlyIncreasing(dates) && j + 1 < |dates|
    requires dates[j] <= c < dates[j + 1] && c in article
    requires series == Running(dates, article, total, mode, j, c)
    ensures var key := WindowKey(dates, mode, j);
            var started := if key !in series.entries then series.Set(key, 0.0) else series;
            && key in started.entries
            && started.Set(key, started.entries[key] + article[c] as real)
               == Running(dates, article, total, mode, j, c + 1)
  {
    var b := Buckets(dates, article, total, mode, j);
    WindowKeyFresh(dates, article, total, mode, j);
    var key := WindowKey(dates, mode, j);
    var sum := WindowSum(article, dates[j], c);
    assert WindowSum(article, dates[j], c + 1) == sum + article[c];
    var started := if key !in series.entries then series.Set(key, 0.0) else series;
    if c == dates[j] {
      assert sum == 0;
      assert started == b.Set(key, 0.0);
    } else {
      assert started == b.Set(key, sum as real);
    }
    SetTwice(b, key, sum as real, started.entries[key] + article[c] as real);
  }

  /**
   * Normalisation fails with no result exactly when fewer than two shifted
   * ground-truth dates are days of the article, or when a day of
   * `[first, last)` of them is missing from either map.
   */
  lemma NormalizedFailure(truthDates: seq<Day>, article: map<Day, int>, total: map<Day, int>,
                          offset: int, mode: AggregatePeriod)
    ensures var dates := MatchedDates(truthDates, article, offset);
            && (Normalized(truthDates, article, total, offset, mode) == Err(TooFewDates) <==> |dates| < 2)
            && (Normalized(truthDates, article, total, offset, mode).Ok? <==>
                  |dates| >= 2 && forall c :: dates[0] <= c < dates[|dates| - 1] ==> c in article && c in total)
  {
    WalkedFailure(MatchedDates(truthDates, article, offset), article, total, mode);
  }

  /** The walk succeeds exactly when there are two dates and no day of their span is missing. */
  lemma WalkedFailure(dates: seq<Day>, article: map<Day, int>, total: map<Day, int>, mode: AggregatePeriod)
    ensures Walked(dates, article, total, mode).Ok? <==>
              |dates| >= 2 && forall c :: dates[0] <= c < dates[|dates| - 1] ==> c in article && c in total
  {
    if |dates| >= 2 {
      FirstMissingSpec(article, total, dates[0], dates[|dates| - 1]);
    }
  }

  /**
   * With n >= 2 dates d_0 < ... < d_(n-1), the series has n - 1 entries in
   * increasing date order: d_0 .. d_(n-2) in `after` mode, d_1 .. d_(n-1) in
   * `before` mode; the entry of window i is the article's sum over
   * [d_i, d_(i+1)) divided by the project's (0 if that is 0).
   */
  lemma WalkedSeries(dates: seq<Day>, article: map<Day, int>, total: map<Day, int>, mode: AggregatePeriod)
    requires StrictlyIncreasing(dates)
    requires Walked(dates, article, total, mode).Ok?
    ensures var s := Walked(dates, article, total, mode).value;
            && s.Valid()
            && |s.keys| == |dates| - 1
            && (forall i :: 0 <= i < |s.keys| ==> s.keys[i] == if mode == After then dates[i] else dates[i + 1])
            && (forall i :: 0 <= i < |s.keys| ==>
                  s.entries[s.keys[i]] == Ratio(WindowSum(article, dates[i], dates[i + 1]),
                                                WindowSum(total, dates[i], dates[i + 1])))
            && StrictlyIncreasing(s.keys)
  {
    WalkedBuckets(dates, article, total, mode);
    var s := Walked(dates, article, total, mode).value;
    BucketsKeys(dates, article, total, mode, |dates| - 1);
    BucketsIncreasing(dates, article, total, mode, |dates| - 1);
    forall i | 0 <= i < |s.keys|
      ensures s.keys[i] == if mode == After then dates[i] else dates[i + 1]
      ensures s.entries[s.keys[i]] == Ratio(WindowSum(article, dates[i], dates[i + 1]),
                                            WindowSum(total, dates[i], dates[i + 1]))
    {
      BucketsAt(dates, article, total, mode, |dates| - 1, i);
    }
  }

  /** A successful walk is the series of all its windows. */
  lemma WalkedBuckets(dates: seq<Day>, article: map<Day, int>, total: map<Day, int>, mode: AggregatePeriod)
    requires Walked(dates, article, total, mode).Ok?
    ensures |dates| >= 2
    ensures Walked(dates, article, total, mode).value == Buckets(dates, article, total, mode, |dates| - 1)
  {
  }

  /** The date and value of window `i` among the first `j`, written out. */
  lemma BucketsAt(dates: seq<Day>, article: map<Day, int>, total: map<Day, int>, mode: AggregatePeriod,
                  j: nat, i: nat)
    requires StrictlyIncreasing(dates) && i < j < |dates|
    ensures var s := Buckets(dates, article, total, mode, j);
            && i < |s.keys|
            && s.keys[i] == (if mode == After then dates[i] else dates[i + 1])
            && s.keys[i] in s.entries
            && s.entries[s.keys[i]] == Ratio(WindowSum(article, dates[i], dates[i + 1]),
                                             WindowSum(total, dates[i], dates[i + 1]))
  {
    BucketsKeys(dates, article, total, mode, j);
    BucketsValues(dates, article, total, mode, j);
  }

  /** Every date of a normalised series is a day of the article and a shifted ground-truth date. */
  lemma NormalizedDates(truthDates: seq<Day>, article: map<Day, int>, total: map<Day, int>,
                        offset: int, mode: AggregatePeriod)
    requires StrictlyIncreasing(MatchedDates(truthDates, article, offset))
    requires Normalized(truthDates, article, total, offset, mode).Ok?
    ensures forall k :: k in Normalized(truthDates, article, total, offset, mode).value.keys ==>
              k in article && k - offset in truthDates
  {
    var dates := MatchedDates(truthDates, article, offset);
    var s := Walked(dates, article, total, mode).value;
    WalkedBuckets(dates, article, total, mode);
    BucketsKeys(dates, article, total, mode, |dates| - 1);
    MatchedDatesMembers(truthDates, article, offset);
    forall k | k in s.keys ensures k in dates {
      var i :| 0 <= i < |s.keys| && s.keys[i] == k;
      assert k == dates[i] || k == dates[i + 1];
    }
  }

  /** Windows placed end to end sum to the window they span. */
  lemma {:induction false} WindowSumSplit(m: map<Day, int>, lo: Day, mid: Day, hi: Day)
    requires lo <= mid <= hi
    ensures WindowSum(m, lo, mid) + WindowSum(m, mid, hi) == WindowSum(m, lo, hi)
    decreases hi - mid
  {
    if mid < hi {
      WindowSumSplit(m, lo, mid, hi - 1);
    }
  }

  /** The sum of the first `i` window sums. */
  function SumOfWindows(m: map<Day, int>, dates: seq<Day>, i: nat): int
    requires i < |dates|
  {
    if i == 0 then 0 else SumOfWindows(m, dates, i - 1) + WindowSum(m, dates[i - 1], dates[i])
  }

  /**
   * The windows partition [d_0, d_(n-1)): adding up the windows' counts
   * gives the count over the whole span, so no day is counted twice and
   * the last date is not counted.
   */
  lemma {:induction false} WindowsPartitionSpan(m: map<Day, int>, dates: seq<Day>, i: nat)
    requires StrictlyIncreasing(dates) && i < |dates|
    ensures SumOfWindows(m, dates, i) == WindowSum(m, dates[0], dates[i])
    decreases i
  {
    if i > 0 {
      WindowsPartitionSpan(m, dates, i - 1);
      WindowSumSplit(m, dates[0], dates[i - 1], dates[i]);
    }
  }

  /** The one window that holds day `c`. */
  function WindowOf(dates: seq<Day>, c: Day): (i: nat)
    requires StrictlyIncreasing(dates) && |dates| >= 2 && dates[0] <= c < dates[|dates| - 1]
    ensures i + 1 < |dates| && dates[i] <= c < dates[i + 1]
    ensures forall k :: 0 <= k < |dates| - 1 && dates[k] <= c < dates[k + 1] ==> k == i
  {
    WindowFrom(dates, c, 0)
  }

  /** The first window from window `from` on whose end lies after day `c`. */
  function WindowFrom(dates: seq<Day>, c: Day, from: nat): (i: nat)
    requires from + 1 < |dates| && dates[from] <= c < dates[|dates| - 1]
    ensures from <= i && i + 1 < |dates| && dates[i] <= c < dates[i + 1]
    decreases |dates| - from
  {
    if c < dates[from + 1] then from else WindowFrom(dates, c, from + 1)
  }

  // ---------------------------------------------------------------------
  // Worked examples
  // ---------------------------------------------------------------------

  /**
   * Ground truth on days 0 and 7, an article with 1 access a day and a
   * project with 10 a day on days 0 to 7: in `after` mode the series is
   * {0: 7/70}.
   */
  lemma WeeklyExample()
    ensures var article := map[0 := 1, 1 := 1, 2 := 1, 3 := 1, 4 := 1, 5 := 1, 6 := 1, 7 := 1];
            var total := map[0 := 10, 1 := 10, 2 := 10, 3 := 10, 4 := 10, 5 := 10, 6 := 10, 7 := 10];
            Normalized([0, 7], article, total, 0, After) == Ok(OrderedMap([0], map[0 := 0.1]))
  {
    var article := map[0 := 1, 1 := 1, 2 := 1, 3 := 1, 4 := 1, 5 := 1, 6 := 1, 7 := 1];
    var total := map[0 := 10, 1 := 10, 2 := 10, 3 := 10, 4 := 10, 5 := 10, 6 := 10, 7 := 10];
    assert MatchedDates([0, 7], article, 0) == [0, 7];
    assert WindowSum(article, 0, 2) == 2 && WindowSum(total, 0, 2) == 20;
    assert WindowSum(article, 0, 4) == 4 && WindowSum(total, 0, 4) == 40;
    assert WindowSum(article, 0, 6) == 6 && WindowSum(total, 0, 6) == 60;
    assert WindowSum(article, 0, 7) == 7 && WindowSum(total, 0, 7) == 70;
    assert FirstMissing(article, total, 5, 7) == None;
    assert FirstMissing(article, total, 3, 7) == None;
    assert FirstMissing(article, total, 1, 7) == None;
    assert FirstMissing(article, total, 0, 7) == None;
    assert Buckets([0, 7], article, total, After, 1) == OrderedMap([0], map[0 := 0.1]);
  }

  /**
   * The same data with the article's counts stopping on day 6: the second
   * ground-truth date is not a day of the article, so there is no result.
   */
  lemma WeeklyExampleWithoutEndDay()
    ensures var article := map[0 := 1, 1 := 1, 2 := 1, 3 := 1, 4 := 1, 5 := 1, 6 := 1];
            var total := map[0 := 10, 1 := 10, 2 := 10, 3 := 10, 4 := 10, 5 := 10, 6 := 10];
            Normalized([0, 7], article, total, 0, After) == Err(TooFewDates)
  {
    var article := map[0 := 1, 1 := 1, 2 := 1, 3 := 1, 4 := 1, 5 := 1, 6 := 1];
    assert MatchedDates([0, 7], article, 0) == [0];
  }

  /** A window in which the project had no accesses is normalised to 0. */
  lemma ZeroTotalExample()
    ensures Normalized([0, 2], map[0 := 5, 1 := 3, 2 := 0], map[0 := 0, 1 := 0, 2 := 0], 0, Before)
            == Ok(OrderedMap([2], map[2 := 0.0]))
  {
    var article := map[0 := 5, 1 := 3, 2 := 0];
    var total := map[0 := 0, 1 := 0, 2 := 0];
    assert MatchedDates([0, 2], article, 0) == [0, 2];
    assert WindowSum(total, 0, 2) == 0;
    assert FirstMissing(article, total, 0, 2) == None;
    assert Buckets([0, 2], article, total, Before, 1) == OrderedMap([2], map[2 := 0.0]);
  }
}
