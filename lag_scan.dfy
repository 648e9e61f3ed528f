/**
 * The lagged regression scan (make_figures.py, lines 217-251) and the order
 * in which its R² values are plotted (lines 447-450).
 *
 * For every offset from -28 to 28 the top articles are normalised at that
 * offset; their series become the columns of the design matrix, which is
 * transposed into rows, and the ground truth at the first article's dates
 * shifted back by the offset is the response. The least-squares fit and its
 * R² are a parameter of the model.
 */
module LagScan {
  import opened Wrappers
  import opened OrderedMaps
  import opened Loading
  import opened Normalization
  import opened Ranking

  const MinOffset: int := -28
  const MaxOffset: int := 28

  /** The response `y` (None until an article set it) and the design rows of one offset. */
  datatype LagDesign = LagDesign(y: Option<seq<real>>, rows: seq<seq<real>>)

  /** The daily maps of every ranked pair exist. */
  predicate LoadedFor(counts: Counts, top: seq<Entry>)
  {
    forall e :: e in top ==> e.0 in counts.articles && e.0.0 in counts.totals
  }

  // ---------------------------------------------------------------------
  // One offset (lines 223-236)
  // ---------------------------------------------------------------------

  /** The normalised series of the ranked pairs, in ranking order, at `offset`. */
  function SeriesAt(truth: OrderedMap<Day, real>, counts: Counts, top: seq<Entry>, offset: int, mode: AggregatePeriod)
    : Result<seq<OrderedMap<Day, real>>, NormalizeError>
    requires LoadedFor(counts, top)
    decreases |top|
  {
    if top == [] then Ok([])
    else
      var k := top[|top| - 1].0;
      match SeriesAt(truth, counts, top[..|top| - 1], offset, mode)
      case Err(e) => Err(e)
      case Ok(ss) =>
        match Normalized(truth.keys, counts.articles[k], counts.totals[k.0], offset, mode)
        case Err(e) => Err(e)
        case Ok(s) => Ok(ss + [s])
  }

  /** Every series is a well-formed, non-empty ordered map whose dates line up with the ground truth. */
  ghost predicate Usable(truth: OrderedMap<Day, real>, ss: seq<OrderedMap<Day, real>>, offset: int)
  {
    forall i :: 0 <= i < |ss| ==> ss[i].Valid() && |ss[i].keys| >= 1 && Alignable(truth, ss[i], offset)
  }

  /** One usable series per ranked pair. */
  lemma {:induction false} SeriesAtShape(truth: OrderedMap<Day, real>, counts: Counts, top: seq<Entry>,
                                         offset: int, mode: AggregatePeriod)
    requires truth.Valid() && StrictlyIncreasing(truth.keys) && LoadedFor(counts, top)
    requires SeriesAt(truth, counts, top, offset, mode).Ok?
    ensures |SeriesAt(truth, counts, top, offset, mode).value| == |top|
    ensures Usable(truth, SeriesAt(truth, counts, top, offset, mode).value, offset)
    decreases |top|
  {
    if top != [] {
      var front := top[..|top| - 1];
      var k := top[|top| - 1].0;
      assert top[|top| - 1] in top;
      SeriesAtShape(truth, counts, front, offset, mode);
      NormalizedUsable(truth, counts.articles[k], counts.totals[k.0], offset, mode);
      var ss := SeriesAt(truth, counts, front, offset, mode).value;
      var s := Normalized(truth.keys, counts.articles[k], counts.totals[k.0], offset, mode).value;
      assert SeriesAt(truth, counts, top, offset, mode).value == ss + [s];
    }
  }

  /** Series i is the normalisation of ranked pair i at `offset`. */
  lemma {:induction false} SeriesAtMembers(truth: OrderedMap<Day, real>, counts: Counts, top: seq<Entry>,
                                           offset: int, mode: AggregatePeriod, i: nat)
    requires truth.Valid() && StrictlyIncreasing(truth.keys) && LoadedFor(counts, top)
    requires SeriesAt(truth, counts, top, offset, mode).Ok? && i < |top|
    ensures |SeriesAt(truth, counts, top, offset, mode).value| == |top|
    ensures Normalized(truth.keys, counts.articles[top[i].0], counts.totals[top[i].0.0], offset, mode)
            == Ok(SeriesAt(truth, counts, top, offset, mode).value[i])
    decreases |top|
  {
    var front := top[..|top| - 1];
    var k := top[|top| - 1].0;
    assert top[|top| - 1] in top;
    var prev := SeriesAt(truth, counts, front, offset, mode);
    var last := Normalized(truth.keys, counts.articles[k], counts.totals[k.0], offset, mode);
    assert prev.Ok? && last.Ok?;
    SeriesAtShape(truth, counts, front, offset, mode);
    assert SeriesAt(truth, counts, top, offset, mode).value == prev.value + [last.value];
    if i < |top| - 1 {
      SeriesAtMembers(truth, counts, front, offset, mode, i);
      assert front[i] == top[i];
    }
  }

  /** A failure among the first pairs is the failure at this offset. */
  lemma {:induction false} SeriesAtPrefixFails(truth: OrderedMap<Day, real>, counts: Counts, top: seq<Entry>,
                                               offset: int, mode: AggregatePeriod, n: nat)
    requires LoadedFor(counts, top)
    requires n <= |top| && SeriesAt(truth, counts, top[..n], offset, mode).Err?
    ensures SeriesAt(truth, counts, top, offset, mode) == SeriesAt(truth, counts, top[..n], offset, mode)
    decreases |top| - n
  {
    if n < |top| {
      var front := top[..|top| - 1];
      assert front[..n] == top[..n];
      SeriesAtPrefixFails(truth, counts, front, offset, mode, n);
    } else {
      assert top[..n] == top;
    }
  }

  /** `X`: the values of each series, one column per ranked pair. */
  function ColumnsOf(ss: seq<OrderedMap<Day, real>>): (cols: seq<seq<real>>)
    requires forall i :: 0 <= i < |ss| ==> ss[i].Valid()
    ensures |cols| == |ss|
    ensures forall i :: 0 <= i < |ss| ==> cols[i] == ss[i].Values()
  {
    seq(|ss|, i requires 0 <= i < |ss| => ss[i].Values())
  }

  /**
   * `y` after the series `ss` (lines 234-236): set from a series while it is
   * still unset or empty, so it stays unset only when there is no series,
   * and is otherwise the ground truth aligned with one of them.
   */
  function YOf(truth: OrderedMap<Day, real>, ss: seq<OrderedMap<Day, real>>, offset: int): (y: Option<seq<real>>)
    requires forall i :: 0 <= i < |ss| ==> Alignable(truth, ss[i], offset)
    ensures y.None? <==> ss == []
    ensures y.Some? ==> exists i :: 0 <= i < |ss| && y.value == Aligned(truth, ss[i], offset)
    decreases |ss|
  {
    if ss == [] then None
    else
      var y := YOf(truth, ss[..|ss| - 1], offset);
      if y.None? || y.value == [] then Some(Aligned(truth, ss[|ss| - 1], offset)) else y
  }

  /**
   * Since no normalised series is empty, `y` is the ground truth at the
   * first ranked article's dates shifted back by the offset.
   */
  lemma {:induction false} YFromFirst(truth: OrderedMap<Day, real>, ss: seq<OrderedMap<Day, real>>, offset: int)
    requires Usable(truth, ss, offset) && |ss| >= 1
    ensures YOf(truth, ss, offset) == Some(Aligned(truth, ss[0], offset))
    decreases |ss|
  {
    if |ss| > 1 {
      var front := ss[..|ss| - 1];
      YFromFirst(truth, front, offset);
      assert |Aligned(truth, front[0], offset)| >= 1;
    }
  }

  // ---------------------------------------------------------------------
  // `zip(*X)` (line 239)
  // ---------------------------------------------------------------------

  /** The length of the shortest column; 0 for no columns. */
  function MinLen(cols: seq<seq<real>>): (n: nat)
    ensures forall j :: 0 <= j < |cols| ==> n <= |cols[j]|
    ensures cols != [] ==> exists j :: 0 <= j < |cols| && n == |cols[j]|
    decreases |cols|
  {
    if cols == [] then 0
    else if |cols| == 1 then |cols[0]|
    else
      var rest := MinLen(cols[1..]);
      assert forall j :: 1 <= j < |cols| ==> cols[1..][j - 1] == cols[j];
      if |cols[0]| <= rest then |cols[0]| else rest
  }

  /** The shortest of columns of one length has that length. */
  lemma {:induction false} MinLenUniform(cols: seq<seq<real>>, n: nat)
    requires |cols| >= 1 && forall j :: 0 <= j < |cols| ==> |cols[j]| == n
    ensures MinLen(cols) == n
    decreases |cols|
  {
    if |cols| > 1 {
      MinLenUniform(cols[1..], n);
    }
  }

  /**
   * `[list(x) for x in zip(*cols)]`: as many rows as the shortest column has
   * entries, row i holding entry i of every column; `zip` drops the rest.
   */
  function Transpose(cols: seq<seq<real>>): (rows: seq<seq<real>>)
    ensures |rows| == MinLen(cols)
    ensures forall i, j :: 0 <= i < |rows| && 0 <= j < |cols| ==> |rows[i]| == |cols| && rows[i][j] == cols[j][i]
  {
    var n := MinLen(cols);
    seq(n, i requires 0 <= i < n => seq(|cols|, j requires 0 <= j < |cols| => cols[j][i]))
  }

  /** Columns of one common, non-zero length come back from a double transpose. */
  lemma TransposeTwice(cols: seq<seq<real>>, n: nat)
    requires |cols| >= 1 && n >= 1
    requires forall j :: 0 <= j < |cols| ==> |cols[j]| == n
    ensures Transpose(Transpose(cols)) == cols
  {
    MinLenUniform(cols, n);
    var rows := Transpose(cols);
    assert |rows| == n;
    assert forall i :: 0 <= i < n ==> |rows[i]| == |cols|;
    MinLenUniform(rows, |cols|);
    var back := Transpose(rows);
    assert |back| == |cols|;
    forall j | 0 <= j < |cols| ensures back[j] == cols[j] {
      assert |back[j]| == n;
    }
  }

  // ---------------------------------------------------------------------
  // The design of one offset and the scan over all of them
  // ---------------------------------------------------------------------

  /**
   * What lines 223-239 build for one offset, or the error a normalisation
   * raises: `y` is unset only when nothing is ranked, and each row holds
   * one value per ranked article.
   */
  function DesignAt(truth: OrderedMap<Day, real>, counts: Counts, top: seq<Entry>, offset: int, mode: AggregatePeriod)
    : (r: Result<LagDesign, NormalizeError>)
    requires truth.Valid() && StrictlyIncreasing(truth.keys) && LoadedFor(counts, top)
    ensures r.Ok? ==> (r.value.y.None? <==> top == [])
    ensures r.Ok? ==> forall i :: 0 <= i < |r.value.rows| ==> |r.value.rows[i]| == |top|
  {
    match SeriesAt(truth, counts, top, offset, mode)
    case Err(e) => Err(e)
    case Ok(ss) =>
      SeriesAtShape(truth, counts, top, offset, mode);
      Ok(LagDesign(YOf(truth, ss, offset), Transpose(ColumnsOf(ss))))
  }

  /**
   * The response of one offset: with at least one ranked article it holds
   * the ground truth at each date of the first article's series shifted
   * back by the offset; with none it stays unset.
   */
  lemma DesignResponse(truth: OrderedMap<Day, real>, counts: Counts, top: seq<Entry>, offset: int, mode: AggregatePeriod)
    requires truth.Valid() && StrictlyIncreasing(truth.keys) && LoadedFor(counts, top)
    requires DesignAt(truth, counts, top, offset, mode).Ok?
    ensures var y := DesignAt(truth, counts, top, offset, mode).value.y;
            var ss := SeriesAt(truth, counts, top, offset, mode).value;
            && |ss| == |top| && Usable(truth, ss, offset)
            && (top == [] ==> y.None?)
            && (top != [] ==> y == Some(Aligned(truth, ss[0], offset)))
  {
    SeriesAtShape(truth, counts, top, offset, mode);
    var ss := SeriesAt(truth, counts, top, offset, mode).value;
    assert DesignAt(truth, counts, top, offset, mode).value.y == YOf(truth, ss, offset);
    if top != [] {
      YFromFirst(truth, ss, offset);
    }
  }

  /**
   * The rows of one offset: as many as the shortest series, row i holding
   * the i-th value of every ranked article's series in ranking order.
   */
  lemma DesignRows(truth: OrderedMap<Day, real>, counts: Counts, top: seq<Entry>, offset: int, mode: AggregatePeriod)
    requires truth.Valid() && StrictlyIncreasing(truth.keys) && LoadedFor(counts, top)
    requires DesignAt(truth, counts, top, offset, mode).Ok?
    ensures var rows := DesignAt(truth, counts, top, offset, mode).value.rows;
            var ss := SeriesAt(truth, counts, top, offset, mode).value;
            && |ss| == |top| && Usable(truth, ss, offset)
            && |rows| == MinLen(ColumnsOf(ss))
            && (forall i, j :: 0 <= i < |rows| && 0 <= j < |ss| ==>
                  |rows[i]| == |ss| && rows[i][j] == ss[j].entries[ss[j].keys[i]])
  {
    SeriesAtShape(truth, counts, top, offset, mode);
    var ss := SeriesAt(truth, counts, top, offset, mode).value;
  }

  /** `sm.OLS(y, X)` (lines 245-246) accepts the design: `y` is set and has one value per row. */
  predicate Fittable(d: LagDesign)
  {
    d.y.Some? && |d.y.value| == |d.rows|
  }

  /**
   * `y` has the first series' length and `zip` cuts the rows to the
   * shortest series, so the fit can run exactly when there is a ranked
   * article and no series is shorter than the first.
   */
  lemma DesignFittable(truth: OrderedMap<Day, real>, counts: Counts, top: seq<Entry>, offset: int, mode: AggregatePeriod)
    requires truth.Valid() && StrictlyIncreasing(truth.keys) && LoadedFor(counts, top)
    requires DesignAt(truth, counts, top, offset, mode).Ok?
    ensures var ss := SeriesAt(truth, counts, top, offset, mode).value;
            Fittable(DesignAt(truth, counts, top, offset, mode).value) <==>
              top != [] && forall j :: 0 <= j < |ss| ==> |ss[0].keys| <= |ss[j].keys|
  {
    DesignResponse(truth, counts, top, offset, mode);
    DesignRows(truth, counts, top, offset, mode);
  }

  /**
   * The state of lines 226-236 after the first `n` ranked pairs: their
   * series, `X` holding their values and `y` set from them.
   */
  ghost predicate Built(truth: OrderedMap<Day, real>, counts: Counts, top: seq<Entry>, offset: int,
                        mode: AggregatePeriod, n: nat, ss: seq<OrderedMap<Day, real>>,
                        columns: seq<seq<real>>, y: Option<seq<real>>)
    requires LoadedFor(counts, top) && n <= |top|
  {
    && SeriesAt(truth, counts, top[..n], offset, mode) == Ok(ss)
    && Usable(truth, ss, offset)
    && columns == ColumnsOf(ss)
    && y == YOf(truth, ss, offset)
  }

  /** Pair `n` normalises to `s`: its values join `X` and `y` is set if still unset or empty. */
  lemma BuildStep(truth: OrderedMap<Day, real>, counts: Counts, top: seq<Entry>, offset: int,
                  mode: AggregatePeriod, n: nat, ss: seq<OrderedMap<Day, real>>,
                  columns: seq<seq<real>>, y: Option<seq<real>>)
    requires truth.Valid() && StrictlyIncreasing(truth.keys) && LoadedFor(counts, top) && n < |top|
    requires Built(truth, counts, top, offset, mode, n, ss, columns, y)
    requires top[n].0 in counts.articles && top[n].0.0 in counts.totals
    requires Normalized(truth.keys, counts.articles[top[n].0], counts.totals[top[n].0.0], offset, mode).Ok?
    ensures var s := Normalized(truth.keys, counts.articles[top[n].0], counts.totals[top[n].0.0], offset, mode).value;
            && s.Valid() && Alignable(truth, s, offset)
            && Built(truth, counts, top, offset, mode, n + 1, ss + [s], columns + [s.Values()],
                     if y.None? || y.value == [] then Some(Aligned(truth, s, offset)) else y)
  {
    var k := top[n].0;
    NormalizedUsable(truth, counts.articles[k], counts.totals[k.0], offset, mode);
    var s := Normalized(truth.keys, counts.articles[k], counts.totals[k.0], offset, mode).value;
    assert SeriesAt(truth, counts, top[..n + 1], offset, mode) == Ok(ss + [s]) by {
      assert top[..n + 1][..n] == top[..n];
      assert top[..n + 1][n] == top[n];
    }
    UsableSnoc(truth, ss, s, offset);
    ColumnsSnoc(ss, s);
    YSnoc(truth, ss, s, offset);
  }

  lemma UsableSnoc(truth: OrderedMap<Day, real>, ss: seq<OrderedMap<Day, real>>, s: OrderedMap<Day, real>, offset: int)
    requires Usable(truth, ss, offset) && s.Valid() && |s.keys| >= 1 && Alignable(truth, s, offset)
    ensures Usable(truth, ss + [s], offset)
  {
    assert forall i :: 0 <= i < |ss| ==> (ss + [s])[i] == ss[i];
  }

  lemma ColumnsSnoc(ss: seq<OrderedMap<Day, real>>, s: OrderedMap<Day, real>)
    requires (forall i :: 0 <= i < |ss| ==> ss[i].Valid()) && s.Valid()
    ensures ColumnsOf(ss + [s]) == ColumnsOf(ss) + [s.Values()]
  {
  }

  lemma YSnoc(truth: OrderedMap<Day, real>, ss: seq<OrderedMap<Day, real>>, s: OrderedMap<Day, real>, offset: int)
    requires (forall i :: 0 <= i < |ss| ==> Alignable(truth, ss[i], offset)) && Alignable(truth, s, offset)
    ensures var y := YOf(truth, ss, offset);
            YOf(truth, ss + [s], offset) == if y.None? || y.value == [] then Some(Aligned(truth, s, offset)) else y
  {
    assert (ss + [s])[..|ss|] == ss;
  }

  /** Pair `n` fails to normalise: so does this offset. */
  lemma BuildFails(truth: OrderedMap<Day, real>, counts: Counts, top: seq<Entry>, offset: int,
                   mode: AggregatePeriod, n: nat, ss: seq<OrderedMap<Day, real>>,
                   columns: seq<seq<real>>, y: Option<seq<real>>)
    requires truth.Valid() && StrictlyIncreasing(truth.keys) && LoadedFor(counts, top) && n < |top|
    requires Built(truth, counts, top, offset, mode, n, ss, columns, y)
    requires top[n].0 in counts.articles && top[n].0.0 in counts.totals
    requires Normalized(truth.keys, counts.articles[top[n].0], counts.totals[top[n].0.0], offset, mode).Err?
    ensures DesignAt(truth, counts, top, offset, mode)
            == Err(Normalized(truth.keys, counts.articles[top[n].0], counts.totals[top[n].0.0], offset, mode).error)
  {
    assert top[..n + 1][..n] == top[..n];
    assert top[..n + 1][n] == top[n];
    SeriesAtPrefixFails(truth, counts, top, offset, mode, n + 1);
  }

  /** After the last pair, the design is `y` and the transpose of `X`. */
  lemma BuildDone(truth: OrderedMap<Day, real>, counts: Counts, top: seq<Entry>, offset: int,
                  mode: AggregatePeriod, ss: seq<OrderedMap<Day, real>>,
                  columns: seq<seq<real>>, y: Option<seq<real>>)
    requires truth.Valid() && StrictlyIncreasing(truth.keys) && LoadedFor(counts, top)
    requires Built(truth, counts, top, offset, mode, |top|, ss, columns, y)
    ensures DesignAt(truth, counts, top, offset, mode) == Ok(LagDesign(y, Transpose(columns)))
  {
    assert top[..|top|] == top;
  }

  /** Lines 223-239 for one offset. */
  method BuildDesign(truth: OrderedMap<Day, real>, counts: Counts, top: seq<Entry>, offset: int, mode: AggregatePeriod)
    returns (r: Result<LagDesign, NormalizeError>)
    requires truth.Valid() && StrictlyIncreasing(truth.keys) && LoadedFor(counts, top)
    ensures r == DesignAt(truth, counts, top, offset, mode)
  {
    var y: Option<seq<real>> := None;
    var columns: seq<seq<real>> := [];
    ghost var ss: seq<OrderedMap<Day, real>> := [];
    for n := 0 to |top|
      invariant Built(truth, counts, top, offset, mode, n, ss, columns, y)
    {
      var k := top[n].0;
      assert top[n] in top;
      var article := counts.articles[k];
      var total := counts.totals[k.0];
      MatchedDatesIncreasing(truth.keys, article, offset);
      var s := NormalizeWalk(truth, article, total, offset, mode);
      if s.Err? {
        BuildFails(truth, counts, top, offset, mode, n, ss, columns, y);
        return Err(s.error);
      }
      BuildStep(truth, counts, top, offset, mode, n, ss, columns, y);
      columns := columns + [s.value.Values()];
      if y.None? || y.value == [] {
        y := Some(Aligned(truth, s.value, offset));
      }
      ss := ss + [s.value];
    }
    BuildDone(truth, counts, top, offset, mode, ss, columns, y);
    return Ok(LagDesign(y, Transpose(columns)));
  }

  /** The designs of the offsets from MinOffset up to, not including, `k`, keyed by offset. */
  function ScanUpTo(truth: OrderedMap<Day, real>, counts: Counts, top: seq<Entry>, mode: AggregatePeriod, k: int)
    : (r: Result<map<int, LagDesign>, NormalizeError>)
    requires truth.Valid() && StrictlyIncreasing(truth.keys) && LoadedFor(counts, top)
    requires MinOffset <= k
    ensures r.Ok? ==> forall x :: x in r.value ==> MinOffset <= x < k
    decreases k - MinOffset
  {
    if k == MinOffset then Ok(map[])
    else
      match ScanUpTo(truth, counts, top, mode, k - 1)
      case Err(e) => Err(e)
      case Ok(m) =>
        match DesignAt(truth, counts, top, k - 1, mode)
        case Err(e) => Err(e)
        case Ok(d) => Ok(m[k - 1 := d])
  }

  /** A failure at an earlier offset is the failure of the whole scan. */
  lemma {:induction false} ScanPrefixFails(truth: OrderedMap<Day, real>, counts: Counts, top: seq<Entry>,
                                           mode: AggregatePeriod, k: int, k': int)
    requires truth.Valid() && StrictlyIncreasing(truth.keys) && LoadedFor(counts, top)
    requires MinOffset <= k <= k' && ScanUpTo(truth, counts, top, mode, k).Err?
    ensures ScanUpTo(truth, counts, top, mode, k') == ScanUpTo(truth, counts, top, mode, k)
    decreases k' - k
  {
    if k < k' {
      ScanPrefixFails(truth, counts, top, mode, k, k' - 1);
      var prev := ScanUpTo(truth, counts, top, mode, k' - 1);
      assert prev.Err?;
      assert ScanUpTo(truth, counts, top, mode, k') == Err(prev.error);
    }
  }

  /** A failed scan fails with the failure of one of its offsets. */
  lemma {:induction false} ScanUpToFailure(truth: OrderedMap<Day, real>, counts: Counts, top: seq<Entry>,
                                           mode: AggregatePeriod, k: int)
    requires truth.Valid() && StrictlyIncreasing(truth.keys) && LoadedFor(counts, top)
    requires MinOffset <= k && ScanUpTo(truth, counts, top, mode, k).Err?
    ensures exists x :: MinOffset <= x < k && DesignAt(truth, counts, top, x, mode) == Err(ScanUpTo(truth, counts, top, mode, k).error)
    decreases k - MinOffset
  {
    var prev := ScanUpTo(truth, counts, top, mode, k - 1);
    if prev.Err? {
      ScanUpToFailure(truth, counts, top, mode, k - 1);
    } else {
      assert DesignAt(truth, counts, top, k - 1, mode) == Err(ScanUpTo(truth, counts, top, mode, k).error);
    }
  }

  /** One more offset whose design is built: it is added to the scan. */
  lemma ScanStep(truth: OrderedMap<Day, real>, counts: Counts, top: seq<Entry>, mode: AggregatePeriod,
                 k: int, m: map<int, LagDesign>, d: LagDesign)
    requires truth.Valid() && StrictlyIncreasing(truth.keys) && LoadedFor(counts, top)
    requires MinOffset <= k && ScanUpTo(truth, counts, top, mode, k) == Ok(m)
    requires DesignAt(truth, counts, top, k, mode) == Ok(d)
    ensures ScanUpTo(truth, counts, top, mode, k + 1) == Ok(m[k := d])
  {
  }

  /** One more offset whose normalisation fails: the failure ends the scan. */
  lemma ScanStops(truth: OrderedMap<Day, real>, counts: Counts, top: seq<Entry>, mode: AggregatePeriod,
                  k: int, m: map<int, LagDesign>, e: NormalizeError)
    requires truth.Valid() && StrictlyIncreasing(truth.keys) && LoadedFor(counts, top)
    requires MinOffset <= k <= MaxOffset && ScanUpTo(truth, counts, top, mode, k) == Ok(m)
    requires DesignAt(truth, counts, top, k, mode) == Err(e)
    ensures ScanUpTo(truth, counts, top, mode, MaxOffset + 1) == Err(e)
  {
    ScanFailsAt(truth, counts, top, mode, k, m, e);
    ScanPrefixFails(truth, counts, top, mode, k + 1, MaxOffset + 1);
  }

  lemma ScanFailsAt(truth: OrderedMap<Day, real>, counts: Counts, top: seq<Entry>, mode: AggregatePeriod,
                    k: int, m: map<int, LagDesign>, e: NormalizeError)
    requires truth.Valid() && StrictlyIncreasing(truth.keys) && LoadedFor(counts, top)
    requires MinOffset <= k && ScanUpTo(truth, counts, top, mode, k) == Ok(m)
    requires DesignAt(truth, counts, top, k, mode) == Err(e)
    ensures ScanUpTo(truth, counts, top, mode, k + 1) == Err(e)
  {
  }

  /** Lines 217-251: one design per offset from -28 to 28. */
  method RunLagScan(truth: OrderedMap<Day, real>, counts: Counts, top: seq<Entry>, mode: AggregatePeriod)
    returns (r: Result<map<int, LagDesign>, NormalizeError>)
    requires truth.Valid() && StrictlyIncreasing(truth.keys) && LoadedFor(counts, top)
    ensures r == ScanUpTo(truth, counts, top, mode, MaxOffset + 1)
  {
    var designs: map<int, LagDesign> := map[];
    var offset := MinOffset;
    while offset <= MaxOffset
      invariant MinOffset <= offset <= MaxOffset + 1
      invariant ScanUpTo(truth, counts, top, mode, offset) == Ok(designs)
      decreases MaxOffset - offset
    {
      var d := BuildDesign(truth, counts, top, offset, mode);
      if d.Err? {
        ScanStops(truth, counts, top, mode, offset, designs, d.error);
        return Err(d.error);
      }
      ScanStep(truth, counts, top, mode, offset, designs, d.value);
      designs := designs[offset := d.value];
      offset := offset + 1;
    }
    return Ok(designs);
  }

  /** The scan fits exactly the offsets from MinOffset to `k` - 1. */
  lemma {:induction false} ScanUpToKeys(truth: OrderedMap<Day, real>, counts: Counts, top: seq<Entry>,
                                        mode: AggregatePeriod, k: int)
    requires truth.Valid() && StrictlyIncreasing(truth.keys) && LoadedFor(counts, top)
    requires MinOffset <= k && ScanUpTo(truth, counts, top, mode, k).Ok?
    ensures var m := ScanUpTo(truth, counts, top, mode, k).value;
            && (forall x :: x in m <==> MinOffset <= x < k)
            && |m.Keys| == k - MinOffset
    decreases k - MinOffset
  {
    if k > MinOffset {
      var prev := ScanUpTo(truth, counts, top, mode, k - 1);
      var design := DesignAt(truth, counts, top, k - 1, mode);
      assert prev.Ok? && design.Ok?;
      ScanUpToKeys(truth, counts, top, mode, k - 1);
      assert ScanUpTo(truth, counts, top, mode, k).value == prev.value[k - 1 := design.value];
      OffsetAdded(prev.value, k - 1, design.value, prev.value[k - 1 := design.value]);
    }
  }

  /** Adding the next offset to the offsets from MinOffset up to `k` - 1. */
  lemma OffsetAdded(m: map<int, LagDesign>, k: int, d: LagDesign, m': map<int, LagDesign>)
    requires MinOffset <= k && m' == m[k := d]
    requires (forall x :: x in m <==> MinOffset <= x < k) && |m.Keys| == k - MinOffset
    ensures (forall x :: x in m' <==> MinOffset <= x <= k) && |m'.Keys| == k + 1 - MinOffset
  {
    assert m'.Keys == m.Keys + {k};
  }

  /** Each offset of the scan holds the design built at that offset. */
  lemma {:induction false} ScanUpToValues(truth: OrderedMap<Day, real>, counts: Counts, top: seq<Entry>,
                                          mode: AggregatePeriod, k: int)
    requires truth.Valid() && StrictlyIncreasing(truth.keys) && LoadedFor(counts, top)
    requires MinOffset <= k && ScanUpTo(truth, counts, top, mode, k).Ok?
    ensures var m := ScanUpTo(truth, counts, top, mode, k).value;
            forall x :: x in m ==> DesignAt(truth, counts, top, x, mode) == Ok(m[x])
    decreases k - MinOffset
  {
    if k > MinOffset {
      var prev := ScanUpTo(truth, counts, top, mode, k - 1);
      var design := DesignAt(truth, counts, top, k - 1, mode);
      assert prev.Ok? && design.Ok?;
      ScanUpToValues(truth, counts, top, mode, k - 1);
      var m := prev.value[k - 1 := design.value];
      assert ScanUpTo(truth, counts, top, mode, k).value == m;
      forall x | x in m ensures DesignAt(truth, counts, top, x, mode) == Ok(m[x]) {
        if x != k - 1 {
          assert x in prev.value;
        }
      }
    }
  }

  /** The scan over -28..28 makes 57 fits, one per offset. */
  lemma ScanCovers(truth: OrderedMap<Day, real>, counts: Counts, top: seq<Entry>, mode: AggregatePeriod)
    requires truth.Valid() && StrictlyIncreasing(truth.keys) && LoadedFor(counts, top)
    requires ScanUpTo(truth, counts, top, mode, MaxOffset + 1).Ok?
    ensures var m := ScanUpTo(truth, counts, top, mode, MaxOffset + 1).value;
            && (forall x :: x in m <==> MinOffset <= x <= MaxOffset)
            && |m.Keys| == 57
  {
    ScanUpToKeys(truth, counts, top, mode, MaxOffset + 1);
  }

  // ---------------------------------------------------------------------
  // The R² plot (lines 447-450)
  // ---------------------------------------------------------------------

  /** `sorted(lag_results)`: the offsets in increasing order. */
  function SortedOffsets(): (xs: seq<int>)
    ensures |xs| == MaxOffset - MinOffset + 1
  {
    seq(MaxOffset - MinOffset + 1, i => MinOffset + i)
  }

  /** The sorted offsets are increasing and are exactly the scanned offsets. */
  lemma SortedOffsetsSpec()
    ensures StrictlyIncreasing(SortedOffsets())
    ensures forall x :: x in SortedOffsets() <==> MinOffset <= x <= MaxOffset
  {
    var xs := SortedOffsets();
    forall x | MinOffset <= x <= MaxOffset ensures x in xs {
      assert xs[x - MinOffset] == x;
    }
  }

  function Reverse(s: seq<real>): (r: seq<real>)
    ensures |r| == |s|
    ensures forall i :: 0 <= i < |s| ==> r[i] == s[|s| - 1 - i]
  {
    seq(|s|, i requires 0 <= i < |s| => s[|s| - 1 - i])
  }

  /** The x coordinate of plot position `p`: `range(-28, 29)`. */
  function PlotX(p: nat): int
  {
    MinOffset + p
  }

  /**
   * The plotted R² values: by offset, then reversed (lines 447-448). The
   * reversal mirrors the axis: the value plotted at x is the fit of
   * offset -x, for every x of the plotted range.
   */
  function PlotSeries(designs: map<int, LagDesign>, rsquared: LagDesign -> real): (ys: seq<real>)
    requires forall x :: MinOffset <= x <= MaxOffset ==> x in designs
    ensures |ys| == MaxOffset - MinOffset + 1
    ensures forall p: nat :: p < |ys| ==> ys[p] == rsquared(designs[-PlotX(p)])
  {
    var xs := SortedOffsets();
    Reverse(seq(|xs|, i requires 0 <= i < |xs| => rsquared(designs[xs[i]])))
  }
}
