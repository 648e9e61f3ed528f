/**
 * The search for the ten articles whose normalised series correlate best
 * with the ground truth (make_figures.py, lines 201-215).
 *
 * Each (project, article) pair is normalised with no offset, its series is
 * correlated with the ground-truth values at the same dates, a NaN
 * correlation is dropped, and the rest are sorted by absolute value,
 * largest first, keeping the first ten. Pearson's correlation is a
 * parameter of the model: `None` stands for NaN.
 */
module Ranking {
  import opened Wrappers
  import opened OrderedMaps
  import opened Headers
  import opened Loading
  import opened Normalization

  /** How many articles are kept (line 215). */
  const TopCount: nat := 10

  /** A (project, article) pair with its correlation. */
  type Entry = (ArticleKey, real)

  /** The daily maps of every pair of `keys` exist. */
  predicate Loaded(counts: Counts, keys: seq<ArticleKey>)
  {
    forall k :: k in keys ==> k in counts.articles && k.0 in counts.totals
  }

  /** No pair has two entries, as in a dictionary keyed by pairs. */
  predicate DistinctPairs(s: seq<Entry>)
  {
    forall i, j :: 0 <= i < j < |s| ==> s[i].0 != s[j].0
  }

  // ---------------------------------------------------------------------
  // Ground truth at the dates of a series (lines 207 and 235)
  // ---------------------------------------------------------------------

  /** Every date of the series, shifted back by `offset`, is a ground-truth date. */
  ghost predicate Alignable(truth: OrderedMap<Day, real>, s: OrderedMap<Day, real>, offset: int)
  {
    forall i :: 0 <= i < |s.keys| ==> s.keys[i] - offset in truth.entries
  }

  /** The ground-truth values at the dates of `s` shifted back by `offset`, in the series' order. */
  function Aligned(truth: OrderedMap<Day, real>, s: OrderedMap<Day, real>, offset: int): (y: seq<real>)
    requires Alignable(truth, s, offset)
    ensures |y| == |s.keys|
    ensures forall i :: 0 <= i < |y| ==> y[i] == truth.entries[s.keys[i] - offset]
  {
    seq(|s.keys|, i requires 0 <= i < |s.keys| => truth.entries[s.keys[i] - offset])
  }

  /**
   * On sorted ground truth, a normalised series is a well-formed ordered map
   * with at least one date, and every date of it lines up with a
   * ground-truth date.
   */
  lemma NormalizedUsable(truth: OrderedMap<Day, real>, article: map<Day, int>, total: map<Day, int>,
                         offset: int, mode: AggregatePeriod)
    requires truth.Valid() && StrictlyIncreasing(truth.keys)
    requires Normalized(truth.keys, article, total, offset, mode).Ok?
    ensures var s := Normalized(truth.keys, article, total, offset, mode).value;
            s.Valid() && |s.keys| >= 1 && Alignable(truth, s, offset)
  {
    MatchedDatesIncreasing(truth.keys, article, offset);
    WalkedSeries(MatchedDates(truth.keys, article, offset), article, total, mode);
    NormalizedDates(truth.keys, article, total, offset, mode);
    var s := Normalized(truth.keys, article, total, offset, mode).value;
    forall i | 0 <= i < |s.keys| ensures s.keys[i] - offset in truth.entries {
      assert s.keys[i] in s.keys;
    }
  }

  // ---------------------------------------------------------------------
  // Correlations (lines 202-213)
  // ---------------------------------------------------------------------

  /**
   * The correlation of one article (lines 203-210), or the error its
   * normalisation raises.
   */
  function Score(truth: OrderedMap<Day, real>, counts: Counts, k: ArticleKey,
                 corr: (seq<real>, seq<real>) -> Option<real>, mode: AggregatePeriod)
    : Result<Option<real>, NormalizeError>
    requires truth.Valid() && StrictlyIncreasing(truth.keys)
    requires k in counts.articles && k.0 in counts.totals
  {
    match Normalized(truth.keys, counts.articles[k], counts.totals[k.0], 0, mode)
    case Err(e) => Err(e)
    case Ok(s) =>
      NormalizedUsable(truth, counts.articles[k], counts.totals[k.0], 0, mode);
      Ok(corr(s.Values(), Aligned(truth, s, 0)))
  }

  /**
   * The `article_correlations` dictionary after the pairs of `order`, in
   * that order: every pair with a defined correlation; the first failing
   * normalisation stops the script. Like the dictionary's keys, the pairs
   * of the result are enumerated pairs and distinct.
   */
  function Correlations(truth: OrderedMap<Day, real>, counts: Counts, order: seq<ArticleKey>,
                        corr: (seq<real>, seq<real>) -> Option<real>, mode: AggregatePeriod)
    : (r: Result<seq<Entry>, NormalizeError>)
    requires truth.Valid() && StrictlyIncreasing(truth.keys) && Loaded(counts, order)
    requires Distinct(order)
    ensures r.Ok? ==> |r.value| <= |order|
    ensures r.Ok? ==> forall i :: 0 <= i < |r.value| ==> r.value[i].0 in order
    ensures r.Ok? ==> DistinctPairs(r.value)
    decreases |order|
  {
    if order == [] then Ok([])
    else
      var k := order[|order| - 1];
      var front := order[..|order| - 1];
      assert forall x :: x in front ==> x in order && x != k;
      match Correlations(truth, counts, front, corr, mode)
      case Err(e) => Err(e)
      case Ok(cs) =>
        match Score(truth, counts, k, corr, mode)
        case Err(e) => Err(e)
        case Ok(c) => Ok(if c.Some? then cs + [(k, c.value)] else cs)
  }

  /** Without its last pair, `order` still enumerates loaded pairs, none twice. */
  lemma FrontOrder(counts: Counts, order: seq<ArticleKey>)
    requires Loaded(counts, order) && Distinct(order) && order != []
    ensures var front := order[..|order| - 1];
            && Loaded(counts, front) && Distinct(front)
            && order == front + [order[|order| - 1]]
  {
    var front := order[..|order| - 1];
    assert forall x :: x in front ==> x in order;
  }

  /** The correlations succeed exactly when every pair normalises. */
  lemma {:induction false} CorrelationsSucceed(truth: OrderedMap<Day, real>, counts: Counts, order: seq<ArticleKey>,
                                               corr: (seq<real>, seq<real>) -> Option<real>, mode: AggregatePeriod)
    requires truth.Valid() && StrictlyIncreasing(truth.keys) && Loaded(counts, order)
    requires Distinct(order)
    ensures Correlations(truth, counts, order, corr, mode).Ok? <==>
            forall k :: k in order ==> Score(truth, counts, k, corr, mode).Ok?
    decreases |order|
  {
    if order != [] {
      var front := order[..|order| - 1];
      FrontOrder(counts, order);
      CorrelationsSucceed(truth, counts, front, corr, mode);
    }
  }

  /**
   * A pair is in the dictionary exactly when it was enumerated and its
   * correlation is defined, with that correlation: NaN correlations are
   * left out and nothing else is.
   */
  lemma {:induction false} CorrelationsMembers(truth: OrderedMap<Day, real>, counts: Counts, order: seq<ArticleKey>,
                                               corr: (seq<real>, seq<real>) -> Option<real>, mode: AggregatePeriod,
                                               k: ArticleKey, v: real)
    requires truth.Valid() && StrictlyIncreasing(truth.keys) && Loaded(counts, order)
    requires Distinct(order)
    requires Correlations(truth, counts, order, corr, mode).Ok?
    ensures (k, v) in Correlations(truth, counts, order, corr, mode).value <==>
            k in order && Score(truth, counts, k, corr, mode) == Ok(Some(v))
    decreases |order|
  {
    if order != [] {
      var front := order[..|order| - 1];
      var last := order[|order| - 1];
      FrontOrder(counts, order);
      CorrelationsSucceed(truth, counts, order, corr, mode);
      CorrelationsSucceed(truth, counts, front, corr, mode);
      CorrelationsMembers(truth, counts, front, corr, mode, k, v);
      var cs := Correlations(truth, counts, front, corr, mode).value;
      var c := Score(truth, counts, last, corr, mode).value;
      assert Correlations(truth, counts, order, corr, mode).value == if c.Some? then cs + [(last, c.value)] else cs;
    }
  }

  /** A failure among the first pairs is the failure of the whole enumeration. */
  lemma {:induction false} CorrelationsPrefixFails(truth: OrderedMap<Day, real>, counts: Counts, order: seq<ArticleKey>,
                                                   corr: (seq<real>, seq<real>) -> Option<real>, mode: AggregatePeriod,
                                                   n: nat)
    requires truth.Valid() && StrictlyIncreasing(truth.keys) && Loaded(counts, order)
    requires Distinct(order)
    requires n <= |order| && Correlations(truth, counts, order[..n], corr, mode).Err?
    ensures Correlations(truth, counts, order, corr, mode) == Correlations(truth, counts, order[..n], corr, mode)
    decreases |order| - n
  {
    if n < |order| {
      var front := order[..|order| - 1];
      FrontOrder(counts, order);
      assert front[..n] == order[..n];
      CorrelationsPrefixFails(truth, counts, front, corr, mode, n);
    } else {
      assert order[..n] == order;
    }
  }

  // ---------------------------------------------------------------------
  // Sorting by magnitude and the top ten (line 215)
  // ---------------------------------------------------------------------

  function Magnitude(r: real): (m: real)
    ensures m >= 0.0 && (m == r || m == -r)
  {
    if r < 0.0 then -r else r
  }

  /** Largest absolute correlation first. */
  predicate SortedByMagnitude(s: seq<Entry>)
  {
    forall i, j :: 0 <= i < j < |s| ==> Magnitude(s[i].1) >= Magnitude(s[j].1)
  }

  /** `e` placed before the first entry of no greater magnitude. */
  function Insert(e: Entry, s: seq<Entry>): seq<Entry>
    decreases |s|
  {
    if s == [] || Magnitude(s[0].1) <= Magnitude(e.1) then [e] + s
    else [s[0]] + Insert(e, s[1..])
  }

  /** `sorted(..., key=abs, reverse=True)`, as an insertion sort: a rearrangement of its input. */
  function SortByMagnitude(s: seq<Entry>): (r: seq<Entry>)
    ensures multiset(r) == multiset(s)
    decreases |s|
  {
    if s == [] then []
    else
      var sorted := SortByMagnitude(s[1..]);
      InsertPermutes(s[0], sorted);
      HeadTail(s);
      Insert(s[0], sorted)
  }

  /** A sequence is its first entry and the rest. */
  lemma HeadTail(s: seq<Entry>)
    requires s != []
    ensures multiset(s) == multiset(s[1..]) + multiset{s[0]}
  {
    assert s == [s[0]] + s[1..];
  }

  /** Insertion adds exactly `e`. */
  lemma {:induction false} InsertPermutes(e: Entry, s: seq<Entry>)
    ensures multiset(Insert(e, s)) == multiset(s) + multiset{e}
    decreases |s|
  {
    if s != [] && Magnitude(s[0].1) > Magnitude(e.1) {
      InsertPermutes(e, s[1..]);
      assert s == [s[0]] + s[1..];
      assert Insert(e, s) == [s[0]] + Insert(e, s[1..]);
    }
  }

  /** An entry at least as large as every entry of a sorted sequence can go in front of it. */
  lemma PrependSorted(x: Entry, r: seq<Entry>)
    requires SortedByMagnitude(r)
    requires forall j :: 0 <= j < |r| ==> Magnitude(r[j].1) <= Magnitude(x.1)
    ensures SortedByMagnitude([x] + r)
  {
    var xr := [x] + r;
    forall i, j | 0 <= i < j < |xr| ensures Magnitude(xr[i].1) >= Magnitude(xr[j].1) {
      assert xr[j] == r[j - 1];
      if i > 0 {
        assert xr[i] == r[i - 1];
      }
    }
  }

  /** Insertion keeps every entry within a bound that `e` and the sequence keep. */
  lemma {:induction false} InsertBounded(e: Entry, s: seq<Entry>, m: real)
    requires Magnitude(e.1) <= m
    requires forall j :: 0 <= j < |s| ==> Magnitude(s[j].1) <= m
    ensures forall j :: 0 <= j < |Insert(e, s)| ==> Magnitude(Insert(e, s)[j].1) <= m
    decreases |s|
  {
    if s != [] && Magnitude(s[0].1) > Magnitude(e.1) {
      InsertBounded(e, s[1..], m);
      var r := Insert(e, s);
      assert r == [s[0]] + Insert(e, s[1..]);
      forall j | 0 <= j < |r| ensures Magnitude(r[j].1) <= m {
        if j > 0 {
          assert r[j] == Insert(e, s[1..])[j - 1];
        }
      }
    }
  }

  /** Inserting into a sorted sequence keeps it sorted. */
  lemma {:induction false} InsertSorted(e: Entry, s: seq<Entry>)
    requires SortedByMagnitude(s)
    ensures SortedByMagnitude(Insert(e, s))
    decreases |s|
  {
    if s == [] || Magnitude(s[0].1) <= Magnitude(e.1) {
      PrependSorted(e, s);
    } else {
      InsertSorted(e, s[1..]);
      InsertBounded(e, s[1..], Magnitude(s[0].1));
      PrependSorted(s[0], Insert(e, s[1..]));
    }
  }

  /** The sort orders by magnitude and is a permutation of its input. */
  lemma {:induction false} SortByMagnitudeSpec(s: seq<Entry>)
    ensures SortedByMagnitude(SortByMagnitude(s))
    ensures multiset(SortByMagnitude(s)) == multiset(s)
    decreases |s|
  {
    if s != [] {
      SortByMagnitudeSpec(s[1..]);
      InsertSorted(s[0], SortByMagnitude(s[1..]));
    }
  }

  /** The first ten of the sorted correlations (line 215): min(10, n) of them. */
  function TopTen(cs: seq<Entry>): (top: seq<Entry>)
    ensures |top| == if |cs| <= TopCount then |cs| else TopCount
  {
    assert |SortByMagnitude(cs)| == |cs| by {
      assert |multiset(SortByMagnitude(cs))| == |multiset(cs)|;
    }
    var sorted := SortByMagnitude(cs);
    if |sorted| <= TopCount then sorted else sorted[..TopCount]
  }

  /** The top ten has min(10, n) entries and is sorted by magnitude. */
  lemma TopTenSorted(cs: seq<Entry>)
    ensures |TopTen(cs)| == (if |cs| <= TopCount then |cs| else TopCount)
    ensures SortedByMagnitude(TopTen(cs))
  {
    SortByMagnitudeSpec(cs);
    var sorted := SortByMagnitude(cs);
    assert |sorted| == |cs| by {
      assert |multiset(sorted)| == |multiset(cs)|;
    }
  }

  /** What a prefix of a sorted sequence leaves out is no larger than its last entry. */
  lemma PrefixDominates(sorted: seq<Entry>, n: nat)
    requires SortedByMagnitude(sorted) && 0 < n <= |sorted|
    ensures multiset(sorted[..n]) <= multiset(sorted)
    ensures forall d :: d in multiset(sorted) - multiset(sorted[..n]) ==> Magnitude(d.1) <= Magnitude(sorted[n - 1].1)
  {
    var dropped := sorted[n..];
    assert sorted == sorted[..n] + dropped;
    assert multiset(sorted) - multiset(sorted[..n]) == multiset(dropped);
    forall d: Entry | d in multiset(dropped) ensures Magnitude(d.1) <= Magnitude(sorted[n - 1].1) {
      var i :| 0 <= i < |dropped| && dropped[i] == d;
      assert sorted[n + i] == d;
    }
  }

  /**
   * The top ten is drawn from the input, and an entry is left out only when
   * ten are kept and its magnitude is at most the smallest one kept.
   */
  lemma TopTenDominates(cs: seq<Entry>)
    ensures multiset(TopTen(cs)) <= multiset(cs)
    ensures forall e :: e in TopTen(cs) ==> e in cs
    ensures forall d :: d in multiset(cs) - multiset(TopTen(cs)) ==>
              |TopTen(cs)| == TopCount && Magnitude(d.1) <= Magnitude(TopTen(cs)[TopCount - 1].1)
  {
    SortByMagnitudeSpec(cs);
    var sorted := SortByMagnitude(cs);
    var top := TopTen(cs);
    if |sorted| > TopCount {
      PrefixDominates(sorted, TopCount);
    } else {
      assert multiset(cs) - multiset(top) == multiset{};
    }
    forall e | e in top ensures e in cs {
      assert e in multiset(top);
    }
  }

  // ---------------------------------------------------------------------
  // The ranking loop
  // ---------------------------------------------------------------------

  /** Inserting an entry for a pair not yet present keeps the pairs distinct. */
  lemma {:induction false} InsertDistinct(e: Entry, s: seq<Entry>)
    requires DistinctPairs(s) && forall i :: 0 <= i < |s| ==> s[i].0 != e.0
    ensures DistinctPairs(Insert(e, s))
    decreases |s|
  {
    if s != [] && Magnitude(s[0].1) > Magnitude(e.1) {
      var rest := Insert(e, s[1..]);
      InsertDistinct(e, s[1..]);
      InsertPermutes(e, s[1..]);
      assert Insert(e, s) == [s[0]] + rest;
      forall i | 0 <= i < |rest| ensures rest[i].0 != s[0].0 {
        assert rest[i] in multiset(rest);
        if rest[i] != e {
          assert rest[i] in multiset(s[1..]);
          var m :| 0 <= m < |s[1..]| && s[1..][m] == rest[i];
          assert s[m + 1] == rest[i];
        }
      }
    } else if s != [] {
      assert Insert(e, s) == [e] + s;
    }
  }

  /** Sorting keeps distinct pairs distinct. */
  lemma {:induction false} SortDistinct(s: seq<Entry>)
    requires DistinctPairs(s)
    ensures DistinctPairs(SortByMagnitude(s))
    decreases |s|
  {
    if s != [] {
      var sorted := SortByMagnitude(s[1..]);
      SortDistinct(s[1..]);
      forall i | 0 <= i < |sorted| ensures sorted[i].0 != s[0].0 {
        assert sorted[i] in multiset(s[1..]);
        var m :| 0 <= m < |s[1..]| && s[1..][m] == sorted[i];
        assert s[m + 1] == sorted[i];
      }
      InsertDistinct(s[0], sorted);
    }
  }

  /** A pair with distinct entries takes at most one place in the top ten. */
  lemma TopTenDistinct(cs: seq<Entry>)
    requires DistinctPairs(cs)
    ensures DistinctPairs(TopTen(cs))
  {
    SortDistinct(cs);
  }

  /**
   * What lines 201-215 leave in `article_correlations`: at most ten
   * enumerated pairs, none of them twice.
   */
  function Ranked(truth: OrderedMap<Day, real>, counts: Counts, order: seq<ArticleKey>,
                  corr: (seq<real>, seq<real>) -> Option<real>, mode: AggregatePeriod)
    : (r: Result<seq<Entry>, NormalizeError>)
    requires truth.Valid() && StrictlyIncreasing(truth.keys) && Loaded(counts, order)
    requires Distinct(order)
    ensures r.Ok? ==> |r.value| <= TopCount && DistinctPairs(r.value)
    ensures r.Ok? ==> forall e :: e in r.value ==> e.0 in order
  {
    match Correlations(truth, counts, order, corr, mode)
    case Err(e) => Err(e)
    case Ok(cs) =>
      TopTenDistinct(cs);
      TopTenDominates(cs);
      assert forall e :: e in cs ==> e.0 in order;
      Ok(TopTen(cs))
  }

  /**
   * Lines 201-215, with `order` the enumeration of the set of pairs found
   * in the header.
   */
  method RankArticles(truth: OrderedMap<Day, real>, counts: Counts, order: seq<ArticleKey>,
                      corr: (seq<real>, seq<real>) -> Option<real>, mode: AggregatePeriod)
    returns (r: Result<seq<Entry>, NormalizeError>)
    requires truth.Valid() && StrictlyIncreasing(truth.keys) && Loaded(counts, order)
    requires Distinct(order)
    ensures r == Ranked(truth, counts, order, corr, mode)
  {
    var correlations: seq<Entry> := [];
    for n := 0 to |order|
      invariant Loaded(counts, order[..n]) && Distinct(order[..n])
      invariant Correlations(truth, counts, order[..n], corr, mode) == Ok(correlations)
    {
      var k := order[n];
      CorrelationsStep(truth, counts, order, corr, mode, n, correlations);
      var article := counts.articles[k];
      var total := counts.totals[k.0];
      MatchedDatesIncreasing(truth.keys, article, 0);
      var s := NormalizeWalk(truth, article, total, 0, mode);
      if s.Err? {
        CorrelationsPrefixFails(truth, counts, order, corr, mode, n + 1);
        return Err(s.error);
      }
      NormalizedUsable(truth, article, total, 0, mode);
      var correlation := corr(s.value.Values(), Aligned(truth, s.value, 0));
      if correlation.Some? {
        correlations := correlations + [(k, correlation.value)];
      }
    }
    assert order[..|order|] == order;
    return Ok(TopTen(correlations));
  }

  /** One more pair of `order`: its score extends the correlations of the pairs before it. */
  lemma CorrelationsStep(truth: OrderedMap<Day, real>, counts: Counts, order: seq<ArticleKey>,
                         corr: (seq<real>, seq<real>) -> Option<real>, mode: AggregatePeriod,
                         n: nat, cs: seq<Entry>)
    requires truth.Valid() && StrictlyIncreasing(truth.keys) && Loaded(counts, order)
    requires Distinct(order) && n < |order|
    requires Loaded(counts, order[..n]) && Distinct(order[..n])
    requires Correlations(truth, counts, order[..n], corr, mode) == Ok(cs)
    ensures order[n] in counts.articles && order[n].0 in counts.totals
    ensures Loaded(counts, order[..n + 1]) && Distinct(order[..n + 1])
    ensures Correlations(truth, counts, order[..n + 1], corr, mode) ==
              match Score(truth, counts, order[n], corr, mode)
              case Err(e) => Err(e)
              case Ok(c) => Ok(if c.Some? then cs + [(order[n], c.value)] else cs)
  {
    assert order[n] in order;
    var prefix := order[..n + 1];
    assert prefix[..n] == order[..n];
    assert forall i :: 0 <= i < |prefix| ==> prefix[i] == order[i];
    assert forall x :: x in prefix ==> x in order;
  }

  /**
   * The quirk of a header such as `en-`: the pair (`en`, "") is enumerated
   * but its daily map stays empty, so its normalisation finds no dates and
   * the ranking stops with an error.
   */
  lemma EmptyArticleStopsRanking(truth: OrderedMap<Day, real>, counts: Counts, order: seq<ArticleKey>,
                                 corr: (seq<real>, seq<real>) -> Option<real>, mode: AggregatePeriod,
                                 project: string)
    requires truth.Valid() && StrictlyIncreasing(truth.keys) && Loaded(counts, order)
    requires Distinct(order)
    requires (project, "") in order && counts.articles[(project, "")] == map[]
    ensures Ranked(truth, counts, order, corr, mode).Err?
  {
    EmptyMatches(truth.keys, 0);
    CorrelationsSucceed(truth, counts, order, corr, mode);
    assert Score(truth, counts, (project, ""), corr, mode) == Err(TooFewDates);
  }

  /**
   * From the header row to the ranking: a header `project-` leaves the pair
   * (project, "") in the enumerated set with an empty daily map after
   * loading, so ranking any enumeration of that set fails.
   */
  lemma TrailingHyphenHeaderStopsRanking(headers: seq<string>, columns: map<nat, Column>,
                                         projectArticles: set<ArticleKey>, counts: Counts, rows: seq<Row>,
                                         truth: OrderedMap<Day, real>, order: seq<ArticleKey>,
                                         corr: (seq<real>, seq<real>) -> Option<real>, mode: AggregatePeriod,
                                         project: string)
    requires IndexedFrom(headers, columns, projectArticles, counts)
    requires AddRows(counts, columns, rows).Ok?
    requires truth.Valid() && StrictlyIncreasing(truth.keys)
    requires Distinct(order) && forall k :: k in order <==> k in projectArticles
    requires Hyphen !in project && project + [Hyphen] in headers
    ensures Loaded(AddRows(counts, columns, rows).value, order)
    ensures Ranked(truth, AddRows(counts, columns, rows).value, order, corr, mode).Err?
  {
    var loaded := AddRows(counts, columns, rows).value;
    assert (project, "") in projectArticles by {
      TrailingHyphenIndexed(headers, columns, projectArticles, counts, project);
    }
    LoadedFromHeader(headers, columns, projectArticles, counts, rows, order);
    EmptyArticleUntouched(counts, columns, rows, project);
    EmptyArticleStopsRanking(truth, loaded, order, corr, mode, project);
  }

  /** A header `p-` gives the pair (p, "") a column. */
  lemma TrailingHyphenIndexed(headers: seq<string>, columns: map<nat, Column>,
                              projectArticles: set<ArticleKey>, counts: Counts, project: string)
    requires IndexedFrom(headers, columns, projectArticles, counts)
    requires Hyphen !in project && project + [Hyphen] in headers
    ensures (project, "") in projectArticles
  {
    var i :| 0 <= i < |headers| && headers[i] == project + [Hyphen];
    TrailingHyphenRoutesToTotal(project);
    assert headers[i] != TimestampHeader by {
      assert headers[i][|project|] == Hyphen;
      assert Hyphen !in TimestampHeader;
    }
    assert i in columns && columns[i] == ArticleColumn(project, "");
  }

  /** Every pair of the header has its daily maps after the rows are read. */
  lemma LoadedFromHeader(headers: seq<string>, columns: map<nat, Column>, projectArticles: set<ArticleKey>,
                         counts: Counts, rows: seq<Row>, order: seq<ArticleKey>)
    requires IndexedFrom(headers, columns, projectArticles, counts)
    requires AddRows(counts, columns, rows).Ok?
    requires forall k :: k in order <==> k in projectArticles
    ensures Loaded(AddRows(counts, columns, rows).value, order)
  {
    var loaded := AddRows(counts, columns, rows).value;
    forall k | k in order ensures k in loaded.articles && k.0 in loaded.totals {
      assert k.0 in ProjectsOf(projectArticles);
    }
  }

  lemma {:induction false} EmptyMatches(truthDates: seq<Day>, offset: int)
    ensures MatchedDates(truthDates, map[], offset) == []
    decreases |truthDates|
  {
    if truthDates != [] {
      EmptyMatches(truthDates[1..], offset);
    }
  }
}
