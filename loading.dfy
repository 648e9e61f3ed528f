/**
 * Loading of the two input files, after their text has been parsed
 * (make_figures.py, lines 76-140).
 *
 * The raw counts file becomes, for each (project, article), a map from day
 * to the sum of that column's values over the rows whose hour-corrected
 * timestamp falls on that day, and for each project a map of daily totals.
 * The ground-truth file becomes an insertion-ordered map from day to value;
 * a day given twice is an error.
 */
module Loading {
  import opened Wrappers
  import opened Headers
  import opened OrderedMaps

  /** A calendar date as a day number. */
  type Day = int

  const SecondsPerDay: int := 86400
  const SecondsPerHour: int := 3600

  type SecondOfDay = s: int | 0 <= s < 86400

  /** An already parsed timestamp: its date and the second within that date. */
  datatype Timestamp = Timestamp(day: Day, second: SecondOfDay)

  /** A data row: its timestamp and the values under headers 1, 2, ... in order. */
  datatype Row = Row(stamp: Timestamp, cells: seq<int>)

  type ArticleKey = (string, string)

  /**
   * The two dictionaries the loader fills: per (project, article) and per
   * project, a map from day to accumulated count.
   */
  datatype Counts = Counts(articles: map<ArticleKey, map<Day, int>>, totals: map<string, map<Day, int>>)

  datatype LoadError =
    | UnknownColumn(index: nat)
    | UnknownArticle(project: string, article: string)
    | UnknownProject(project: string)
    | DuplicateDate(day: Day)

  /**
   * The date of the instant one hour before the timestamp: hourly stamps
   * mark the end of their hour (line 110).
   */
  function BucketDay(t: Timestamp): (d: Day)
    ensures d * SecondsPerDay <= t.day * SecondsPerDay + t.second - SecondsPerHour < (d + 1) * SecondsPerDay
  {
    if t.second < SecondsPerHour then t.day - 1 else t.day
  }

  // ---------------------------------------------------------------------
  // Header row (lines 83-104)
  // ---------------------------------------------------------------------

  /** The (project, article) pairs named by the article columns. */
  function ArticleKeys(columns: map<nat, Column>): set<ArticleKey>
  {
    set i | i in columns && columns[i].ArticleColumn? :: (columns[i].project, columns[i].article)
  }

  function ProjectsOf(keys: set<ArticleKey>): set<string>
  {
    set k | k in keys :: k.0
  }

  /**
   * What the header loop leaves behind: the column of every header index
   * but the timestamp's, the set of (project, article) pairs, and an empty
   * daily map for every such pair and for every project that has one.
   */
  ghost predicate IndexedFrom(headers: seq<string>, columns: map<nat, Column>,
                              projectArticles: set<ArticleKey>, counts: Counts)
  {
    && (forall i: nat :: i in columns <==> i < |headers| && headers[i] != TimestampHeader)
    && (forall i: nat :: i in columns ==> Classify(headers[i]) == Some(columns[i]))
    && projectArticles == ArticleKeys(columns)
    && counts.articles.Keys == projectArticles
    && counts.totals.Keys == ProjectsOf(projectArticles)
    && (forall k :: k in counts.articles ==> counts.articles[k] == map[])
    && (forall p :: p in counts.totals ==> counts.totals[p] == map[])
  }

  lemma ArticleKeysExtend(columns: map<nat, Column>, index: nat, c: Column)
    requires index !in columns
    ensures ArticleKeys(columns[index := c])
         == ArticleKeys(columns) + (if c.ArticleColumn? then {(c.project, c.article)} else {})
  {
    var extended := columns[index := c];
    forall k | k in ArticleKeys(extended)
      ensures k in ArticleKeys(columns) + (if c.ArticleColumn? then {(c.project, c.article)} else {})
    {
      var i :| i in extended && extended[i].ArticleColumn? && k == (extended[i].project, extended[i].article);
      if i != index {
        assert columns[i] == extended[i];
      }
    }
    forall k | k in ArticleKeys(columns) ensures k in ArticleKeys(extended) {
      var i :| i in columns && columns[i].ArticleColumn? && k == (columns[i].project, columns[i].article);
      assert extended[i] == columns[i];
    }
    if c.ArticleColumn? {
      assert extended[index] == c;
    }
  }

  lemma ProjectsOfAdd(keys: set<ArticleKey>, project: string, article: string)
    ensures ProjectsOf(keys + {(project, article)}) == ProjectsOf(keys) + {project}
  {
    assert (project, article).0 == project;
  }

  /** All daily maps are still empty. */
  ghost predicate AllEmpty(counts: Counts)
  {
    && (forall k :: k in counts.articles ==> counts.articles[k] == map[])
    && (forall p :: p in counts.totals ==> counts.totals[p] == map[])
  }

  /** Lines 95-99: make the empty daily maps of a new project and article. */
  method InitializeArticle(counts: Counts, project: string, article: string) returns (r: Counts)
    requires AllEmpty(counts)
    ensures AllEmpty(r)
    ensures r.articles.Keys == counts.articles.Keys + {(project, article)}
    ensures r.totals.Keys == counts.totals.Keys + {project}
  {
    r := counts;
    if project !in r.totals {
      r := r.(totals := r.totals[project := map[]]);
    }
    if (project, article) !in r.articles {
      r := r.(articles := r.articles[(project, article) := map[]]);
    }
  }

  method IndexColumns(headers: seq<string>)
    returns (columns: map<nat, Column>, projectArticles: set<ArticleKey>, counts: Counts)
    ensures IndexedFrom(headers, columns, projectArticles, counts)
  {
    columns, projectArticles := map[], {};
    counts := Counts(map[], map[]);
    var index := 0;
    while index < |headers|
      invariant 0 <= index <= |headers|
      invariant forall i: nat :: i in columns <==> i < index && headers[i] != TimestampHeader
      invariant forall i: nat :: i in columns ==> Classify(headers[i]) == Some(columns[i])
      invariant projectArticles == ArticleKeys(columns)
      invariant counts.articles.Keys == projectArticles
      invariant counts.totals.Keys == ProjectsOf(projectArticles)
      invariant AllEmpty(counts)
    {
      var header := headers[index];
      if header != TimestampHeader {
        var column := Classify(header).value;
        ArticleKeysExtend(columns, index, column);
        if column.ArticleColumn? {
          var project, article := column.project, column.article;
          ProjectsOfAdd(projectArticles, project, article);
          projectArticles := projectArticles + {(project, article)};
          counts := InitializeArticle(counts, project, article);
        }
        columns := columns[index := column];
      }
      index := index + 1;
    }
  }

  // ---------------------------------------------------------------------
  // Data rows (lines 107-127)
  // ---------------------------------------------------------------------

  /** `m[d] += v`, creating the entry at 0 first (lines 121-123, 125-127). */
  function Bump(m: map<Day, int>, d: Day, v: int): (r: map<Day, int>)
    ensures r.Keys == m.Keys + {d}
    ensures r[d] == (if d in m then m[d] else 0) + v
    ensures forall d' :: d' in m && d' != d ==> r[d'] == m[d']
  {
    m[d := (if d in m then m[d] else 0) + v]
  }

  /** One cell: the value under header `index` of a row bucketed to `day`. */
  function AddCell(st: Counts, columns: map<nat, Column>, index: nat, day: Day, v: int): (r: Result<Counts, LoadError>)
    ensures r.Ok? <==> Routable(st, columns, index)
    ensures r.Ok? ==> r.value.articles.Keys == st.articles.Keys && r.value.totals.Keys == st.totals.Keys
  {
    if index !in columns then Err(UnknownColumn(index))
    else
      match Route(columns[index])
      case ToArticle(p, a) =>
        if (p, a) !in st.articles then Err(UnknownArticle(p, a))
        else Ok(st.(articles := st.articles[(p, a) := Bump(st.articles[(p, a)], day, v)]))
      case ToTotal(p) =>
        if p !in st.totals then Err(UnknownProject(p))
        else Ok(st.(totals := st.totals[p := Bump(st.totals[p], day, v)]))
  }

  /** The cells `cells[j..]` of a row, in order; cell `i` is under header `i + 1`. */
  function AddCells(st: Counts, columns: map<nat, Column>, day: Day, cells: seq<int>, j: nat): (r: Result<Counts, LoadError>)
    ensures r.Ok? ==> r.value.articles.Keys == st.articles.Keys && r.value.totals.Keys == st.totals.Keys
    decreases |cells| - j
  {
    if j >= |cells| then Ok(st)
    else
      match AddCell(st, columns, j + 1, day, cells[j])
      case Err(e) => Err(e)
      case Ok(s) => AddCells(s, columns, day, cells, j + 1)
  }

  function AddRow(st: Counts, columns: map<nat, Column>, row: Row): (r: Result<Counts, LoadError>)
    ensures r.Ok? ==> r.value.articles.Keys == st.articles.Keys && r.value.totals.Keys == st.totals.Keys
  {
    AddCells(st, columns, BucketDay(row.stamp), row.cells, 0)
  }

  /**
   * The row loop: the rows in file order, stopping at the first error. No
   * dictionary is created or dropped.
   */
  function AddRows(st: Counts, columns: map<nat, Column>, rows: seq<Row>): (r: Result<Counts, LoadError>)
    ensures r.Ok? ==> r.value.articles.Keys == st.articles.Keys && r.value.totals.Keys == st.totals.Keys
    decreases |rows|
  {
    if rows == [] then Ok(st)
    else
      match AddRow(st, columns, rows[0])
      case Err(e) => Err(e)
      case Ok(s) => AddRows(s, columns, rows[1..])
  }

  /** Lines 107-127: every row in file order. */
  method AccumulateRows(columns: map<nat, Column>, initial: Counts, rows: seq<Row>)
    returns (r: Result<Counts, LoadError>)
    ensures r == AddRows(initial, columns, rows)
  {
    var counts := initial;
    var n := 0;
    while n < |rows|
      invariant 0 <= n <= |rows|
      invariant AddRows(initial, columns, rows) == AddRows(counts, columns, rows[n..])
    {
      var added := AccumulateRow(columns, counts, rows[n]);
      assert rows[n..][1..] == rows[n + 1..];
      if added.Err? {
        return Err(added.error);
      }
      counts := added.value;
      n := n + 1;
    }
    return Ok(counts);
  }

  /** Lines 110-127 for one row: its values under headers 1, 2, ... in order. */
  method AccumulateRow(columns: map<nat, Column>, initial: Counts, row: Row)
    returns (r: Result<Counts, LoadError>)
    ensures r == AddRow(initial, columns, row)
  {
    var counts := initial;
    var day := BucketDay(row.stamp);
    var index := 1;
    while index <= |row.cells|
      invariant 1 <= index <= |row.cells| + 1
      invariant AddRow(initial, columns, row) == AddCells(counts, columns, day, row.cells, index - 1)
    {
      var value := row.cells[index - 1];
      ghost var step := AddCell(counts, columns, index, day, value);
      if index !in columns {
        return Err(UnknownColumn(index));
      }
      match Route(columns[index]) {
        case ToArticle(p, a) =>
          if (p, a) !in counts.articles {
            return Err(UnknownArticle(p, a));
          }
          var series := counts.articles[(p, a)];
          if day !in series {
            series := series[day := 0];
          }
          series := series[day := series[day] + value];
          assert series == Bump(counts.articles[(p, a)], day, value);
          counts := counts.(articles := counts.articles[(p, a) := series]);
        case ToTotal(p) =>
          if p !in counts.totals {
            return Err(UnknownProject(p));
          }
          var series := counts.totals[p];
          if day !in series {
            series := series[day := 0];
          }
          series := series[day := series[day] + value];
          assert series == Bump(counts.totals[p], day, value);
          counts := counts.(totals := counts.totals[p := series]);
      }
      assert step == Ok(counts);
      index := index + 1;
    }
    return Ok(counts);
  }

  /** The count of day `d` in a daily map, 0 when the map has no entry for it. */
  function Get0(m: map<Day, int>, d: Day): int
  {
    if d in m then m[d] else 0
  }

  /** The count accumulated for a target on a day, 0 when there is no entry. */
  function Lookup(st: Counts, t: Target, d: Day): int
  {
    match t
    case ToArticle(p, a) => if (p, a) in st.articles then Get0(st.articles[(p, a)], d) else 0
    case ToTotal(p) => if p in st.totals then Get0(st.totals[p], d) else 0
  }

  /** Header `index` is a column routed to `t`. */
  predicate RoutesTo(columns: map<nat, Column>, index: nat, t: Target)
  {
    index in columns && Route(columns[index]) == t
  }

  /** The sum of the values of `cells[j..]` whose header is routed to `t`. */
  function CellSum(columns: map<nat, Column>, cells: seq<int>, j: nat, t: Target): int
    decreases |cells| - j
  {
    if j >= |cells| then 0
    else (if RoutesTo(columns, j + 1, t) then cells[j] else 0) + CellSum(columns, cells, j + 1, t)
  }

  /** The sum, over the rows bucketed to day `d`, of their values routed to `t`. */
  function RowsSum(columns: map<nat, Column>, rows: seq<Row>, t: Target, d: Day): int
    decreases |rows|
  {
    if rows == [] then 0
    else
      (if BucketDay(rows[0].stamp) == d then CellSum(columns, rows[0].cells, 0, t) else 0)
      + RowsSum(columns, rows[1..], t, d)
  }

  /** Day `d` is a key of the daily map of target `t`. */
  predicate Recorded(st: Counts, t: Target, d: Day)
  {
    match t
    case ToArticle(p, a) => (p, a) in st.articles && d in st.articles[(p, a)]
    case ToTotal(p) => p in st.totals && d in st.totals[p]
  }

  /** Some header of `cells[j..]` is routed to `t`. */
  predicate CellsHit(columns: map<nat, Column>, cells: seq<int>, j: nat, t: Target)
    decreases |cells| - j
  {
    j < |cells| && (RoutesTo(columns, j + 1, t) || CellsHit(columns, cells, j + 1, t))
  }

  /** Some row bucketed to day `d` has a value routed to `t`. */
  predicate RowsHit(columns: map<nat, Column>, rows: seq<Row>, t: Target, d: Day)
    decreases |rows|
  {
    rows != [] &&
    ((BucketDay(rows[0].stamp) == d && CellsHit(columns, rows[0].cells, 0, t)) || RowsHit(columns, rows[1..], t, d))
  }

  /** Header `index` is a column whose target dictionary exists in `st`. */
  predicate Routable(st: Counts, columns: map<nat, Column>, index: nat)
  {
    index in columns &&
    match Route(columns[index])
    case ToArticle(p, a) => (p, a) in st.articles
    case ToTotal(p) => p in st.totals
  }

  /** Every value of the row sits under a header that is routable. */
  predicate RowRoutable(st: Counts, columns: map<nat, Column>, row: Row)
  {
    forall h: nat :: 0 < h <= |row.cells| ==> Routable(st, columns, h)
  }

  lemma AddCellEffect(st: Counts, columns: map<nat, Column>, index: nat, day: Day, v: int, t: Target, d: Day)
    requires AddCell(st, columns, index, day, v).Ok?
    ensures Recorded(AddCell(st, columns, index, day, v).value, t, d)
        <==> Recorded(st, t, d) || (d == day && RoutesTo(columns, index, t))
    ensures AddCell(st, columns, index, day, v).value.articles.Keys == st.articles.Keys
    ensures AddCell(st, columns, index, day, v).value.totals.Keys == st.totals.Keys
    ensures Lookup(AddCell(st, columns, index, day, v).value, t, d)
         == Lookup(st, t, d) + (if d == day && RoutesTo(columns, index, t) then v else 0)
  {
  }

  lemma {:induction false} AddCellsEffect(st: Counts, columns: map<nat, Column>, day: Day, cells: seq<int>, j: nat, t: Target, d: Day)
    requires AddCells(st, columns, day, cells, j).Ok?
    ensures AddCells(st, columns, day, cells, j).value.articles.Keys == st.articles.Keys
    ensures AddCells(st, columns, day, cells, j).value.totals.Keys == st.totals.Keys
    ensures Lookup(AddCells(st, columns, day, cells, j).value, t, d)
         == Lookup(st, t, d) + (if d == day then CellSum(columns, cells, j, t) else 0)
    decreases |cells| - j
  {
    if j < |cells| {
      AddCellEffect(st, columns, j + 1, day, cells[j], t, d);
      var s := AddCell(st, columns, j + 1, day, cells[j]).value;
      AddCellsEffect(s, columns, day, cells, j + 1, t, d);
    }
  }

  /**
   * After the row loop, the count of a target on a day is what it was
   * before plus the sum of the values routed to it from the rows bucketed
   * to that day; no dictionary is created or dropped.
   */
  lemma {:induction false} AddRowsEffect(st: Counts, columns: map<nat, Column>, rows: seq<Row>, t: Target, d: Day)
    requires AddRows(st, columns, rows).Ok?
    ensures AddRows(st, columns, rows).value.articles.Keys == st.articles.Keys
    ensures AddRows(st, columns, rows).value.totals.Keys == st.totals.Keys
    ensures Lookup(AddRows(st, columns, rows).value, t, d) == Lookup(st, t, d) + RowsSum(columns, rows, t, d)
    decreases |rows|
  {
    if rows != [] {
      AddCellsEffect(st, columns, BucketDay(rows[0].stamp), rows[0].cells, 0, t, d);
      var s := AddRow(st, columns, rows[0]).value;
      AddRowsEffect(s, columns, rows[1..], t, d);
    }
  }

  /** The days a row adds to a daily map: its own day, when a value is routed there. */
  lemma {:induction false} AddCellsKeys(st: Counts, columns: map<nat, Column>, day: Day, cells: seq<int>, j: nat, t: Target, d: Day)
    requires AddCells(st, columns, day, cells, j).Ok?
    ensures Recorded(AddCells(st, columns, day, cells, j).value, t, d)
        <==> Recorded(st, t, d) || (d == day && CellsHit(columns, cells, j, t))
    decreases |cells| - j
  {
    if j < |cells| {
      AddCellEffect(st, columns, j + 1, day, cells[j], t, d);
      var s := AddCell(st, columns, j + 1, day, cells[j]).value;
      AddCellsKeys(s, columns, day, cells, j + 1, t, d);
    }
  }

  /**
   * After the row loop, day `d` is a key of the daily map of `t` exactly when
   * it was one before, or some row bucketed to `d` has a value routed to `t`
   * (the entry is created at 0 on line 122 or 126 even for a value of 0).
   */
  lemma {:induction false} AddRowsKeys(st: Counts, columns: map<nat, Column>, rows: seq<Row>, t: Target, d: Day)
    requires AddRows(st, columns, rows).Ok?
    ensures Recorded(AddRows(st, columns, rows).value, t, d) <==> Recorded(st, t, d) || RowsHit(columns, rows, t, d)
    decreases |rows|
  {
    if rows != [] {
      AddCellsKeys(st, columns, BucketDay(rows[0].stamp), rows[0].cells, 0, t, d);
      var s := AddRow(st, columns, rows[0]).value;
      AddRowsKeys(s, columns, rows[1..], t, d);
    }
  }

  /** Some header of `cells[j..]` is routed to `t`, written out. */
  lemma {:induction false} CellsHitSpec(columns: map<nat, Column>, cells: seq<int>, j: nat, t: Target)
    ensures CellsHit(columns, cells, j, t) <==> exists h: nat :: j < h <= |cells| && RoutesTo(columns, h, t)
    decreases |cells| - j
  {
    if j < |cells| {
      CellsHitSpec(columns, cells, j + 1, t);
    }
  }

  /** Some row bucketed to `d` has a value routed to `t`, written out. */
  lemma {:induction false} RowsHitSpec(columns: map<nat, Column>, rows: seq<Row>, t: Target, d: Day)
    ensures RowsHit(columns, rows, t, d) <==>
            exists n, h: nat :: 0 <= n < |rows| && BucketDay(rows[n].stamp) == d && 0 < h <= |rows[n].cells|
                                && RoutesTo(columns, h, t)
    decreases |rows|
  {
    if rows != [] {
      RowsHitSpec(columns, rows[1..], t, d);
      CellsHitSpec(columns, rows[0].cells, 0, t);
      if RowsHit(columns, rows[1..], t, d) {
        var n, h: nat :| 0 <= n < |rows[1..]| && BucketDay(rows[1..][n].stamp) == d && 0 < h <= |rows[1..][n].cells|
                         && RoutesTo(columns, h, t);
        assert rows[1..][n] == rows[n + 1];
      }
      forall n, h: nat | 1 <= n < |rows| && BucketDay(rows[n].stamp) == d && 0 < h <= |rows[n].cells|
                         && RoutesTo(columns, h, t)
        ensures RowsHit(columns, rows[1..], t, d)
      {
        assert rows[1..][n - 1] == rows[n];
      }
    }
  }

  lemma {:induction false} AddCellsFailure(st: Counts, columns: map<nat, Column>, day: Day, cells: seq<int>, j: nat)
    ensures AddCells(st, columns, day, cells, j).Ok? <==>
            forall h: nat :: j < h <= |cells| ==> Routable(st, columns, h)
    decreases |cells| - j
  {
    if j < |cells| {
      if Routable(st, columns, j + 1) {
        var s := AddCell(st, columns, j + 1, day, cells[j]).value;
        AddCellEffect(st, columns, j + 1, day, cells[j], ToTotal(""), 0);
        assert forall i: nat :: Routable(s, columns, i) == Routable(st, columns, i);
        AddCellsFailure(s, columns, day, cells, j + 1);
      }
    }
  }

  /**
   * The row loop fails exactly when some value of some row sits under a
   * header that is not a data column, or whose dictionary was never made
   * (a KeyError on line 117, 121 or 125).
   */
  lemma {:induction false} AddRowsFailure(st: Counts, columns: map<nat, Column>, rows: seq<Row>)
    ensures AddRows(st, columns, rows).Ok? <==>
            forall n :: 0 <= n < |rows| ==> RowRoutable(st, columns, rows[n])
    decreases |rows|
  {
    if rows != [] {
      AddCellsFailure(st, columns, BucketDay(rows[0].stamp), rows[0].cells, 0);
      if AddRow(st, columns, rows[0]).Ok? {
        var s := AddRow(st, columns, rows[0]).value;
        AddCellsEffect(st, columns, BucketDay(rows[0].stamp), rows[0].cells, 0, ToTotal(""), 0);
        assert forall i: nat :: Routable(s, columns, i) == Routable(st, columns, i);
        AddRowsFailure(s, columns, rows[1..]);
        assert forall n :: 1 <= n < |rows| ==> rows[1..][n - 1] == rows[n];
      }
    }
  }

  /**
   * A dictionary for an empty article is never written to: the values of
   * such a column go to the project total (line 120).
   */
  lemma {:induction false} EmptyArticleUntouched(st: Counts, columns: map<nat, Column>, rows: seq<Row>, p: string)
    requires AddRows(st, columns, rows).Ok?
    requires (p, "") in st.articles
    ensures (p, "") in AddRows(st, columns, rows).value.articles
    ensures AddRows(st, columns, rows).value.articles[(p, "")] == st.articles[(p, "")]
    decreases |rows|
  {
    if rows != [] {
      var s := AddRow(st, columns, rows[0]).value;
      AddCellsUntouched(st, columns, BucketDay(rows[0].stamp), rows[0].cells, 0, p);
      AddRowsEffect(s, columns, rows[1..], ToTotal(""), 0);
      AddEmptyKeyKept(st, columns, rows[0], p);
      EmptyArticleUntouched(s, columns, rows[1..], p);
    }
  }

  lemma AddEmptyKeyKept(st: Counts, columns: map<nat, Column>, row: Row, p: string)
    requires AddRow(st, columns, row).Ok?
    requires (p, "") in st.articles
    ensures (p, "") in AddRow(st, columns, row).value.articles
  {
    AddCellsEffect(st, columns, BucketDay(row.stamp), row.cells, 0, ToTotal(""), 0);
  }

  lemma {:induction false} AddCellsUntouched(st: Counts, columns: map<nat, Column>, day: Day, cells: seq<int>, j: nat, p: string)
    requires AddCells(st, columns, day, cells, j).Ok?
    requires (p, "") in st.articles
    ensures (p, "") in AddCells(st, columns, day, cells, j).value.articles
    ensures AddCells(st, columns, day, cells, j).value.articles[(p, "")] == st.articles[(p, "")]
    decreases |cells| - j
  {
    if j < |cells| {
      var s := AddCell(st, columns, j + 1, day, cells[j]).value;
      AddCellsUntouched(s, columns, day, cells, j + 1, p);
    }
  }

  /**
   * Every value of the row sits under a data column whose project has an
   * article column.
   */
  predicate RowReadable(columns: map<nat, Column>, projectArticles: set<ArticleKey>, row: Row)
  {
    forall h: nat :: 0 < h <= |row.cells| ==> h in columns && columns[h].project in ProjectsOf(projectArticles)
  }

  /**
   * Loading the raw counts after the header loop: every row may be read
   * exactly when each of its values sits under a data column whose project
   * has at least one article column. A project total column of a project
   * with no article column fails, since only the article branch creates the
   * project's daily totals (lines 95-97 and 125).
   */
  lemma LoadSucceeds(headers: seq<string>, columns: map<nat, Column>, projectArticles: set<ArticleKey>,
                     counts: Counts, rows: seq<Row>)
    requires IndexedFrom(headers, columns, projectArticles, counts)
    ensures AddRows(counts, columns, rows).Ok? <==>
            forall n :: 0 <= n < |rows| ==> RowReadable(columns, projectArticles, rows[n])
  {
    AddRowsFailure(counts, columns, rows);
    forall n | 0 <= n < |rows|
      ensures RowRoutable(counts, columns, rows[n]) <==> RowReadable(columns, projectArticles, rows[n])
    {
      RowRoutableReadable(headers, columns, projectArticles, counts, rows[n]);
    }
  }

  /** After the header loop a row is routable exactly when it is readable. */
  lemma RowRoutableReadable(headers: seq<string>, columns: map<nat, Column>, projectArticles: set<ArticleKey>,
                            counts: Counts, row: Row)
    requires IndexedFrom(headers, columns, projectArticles, counts)
    ensures RowRoutable(counts, columns, row) <==> RowReadable(columns, projectArticles, row)
  {
    forall h: nat | 0 < h <= |row.cells|
      ensures Routable(counts, columns, h) <==> h in columns && columns[h].project in ProjectsOf(projectArticles)
    {
      if h in columns {
        ColumnRoutable(headers, columns, projectArticles, counts, h);
      }
    }
  }

  /** After the header loop a column is routable exactly when its project has an article column. */
  lemma ColumnRoutable(headers: seq<string>, columns: map<nat, Column>, projectArticles: set<ArticleKey>,
                       counts: Counts, index: nat)
    requires IndexedFrom(headers, columns, projectArticles, counts) && index in columns
    ensures Routable(counts, columns, index) <==> columns[index].project in ProjectsOf(projectArticles)
  {
    var c := columns[index];
    if c.ArticleColumn? {
      assert (c.project, c.article) in ArticleKeys(columns);
    }
  }

  /**
   * With all dictionaries freshly made empty, each loaded count of a target
   * on a day is the sum of the values routed to it from the rows bucketed to
   * that day, and the day is a key of the target's map exactly when some
   * such row has a value routed to it.
   */
  lemma LoadedCounts(headers: seq<string>, columns: map<nat, Column>, projectArticles: set<ArticleKey>,
                     counts: Counts, rows: seq<Row>, t: Target, d: Day)
    requires IndexedFrom(headers, columns, projectArticles, counts)
    requires AddRows(counts, columns, rows).Ok?
    ensures Lookup(AddRows(counts, columns, rows).value, t, d) == RowsSum(columns, rows, t, d)
    ensures AddRows(counts, columns, rows).value.articles.Keys == projectArticles
    ensures Recorded(AddRows(counts, columns, rows).value, t, d) <==>
            exists n, h: nat :: 0 <= n < |rows| && BucketDay(rows[n].stamp) == d && 0 < h <= |rows[n].cells|
                                && RoutesTo(columns, h, t)
  {
    AddRowsEffect(counts, columns, rows, t, d);
    AddRowsKeys(counts, columns, rows, t, d);
    RowsHitSpec(columns, rows, t, d);
  }

  // ---------------------------------------------------------------------
  // Ground truth (lines 130-140)
  // ---------------------------------------------------------------------

  function DatesOf(rows: seq<(Day, real)>): (ds: seq<Day>)
    ensures |ds| == |rows|
    ensures forall i :: 0 <= i < |rows| ==> ds[i] == rows[i].0
  {
    seq(|rows|, i requires 0 <= i < |rows| => rows[i].0)
  }

  /**
   * The ground truth in file order; the first row whose date was already
   * seen raises an error.
   */
  method LoadGroundTruth(rows: seq<(Day, real)>) returns (r: Result<OrderedMap<Day, real>, LoadError>)
    ensures r.Ok? <==> Distinct(DatesOf(rows))
    ensures r.Ok? ==> r.value.Valid() && r.value.keys == DatesOf(rows)
    ensures r.Ok? ==> forall i :: 0 <= i < |rows| ==> r.value.entries[rows[i].0] == rows[i].1
    ensures r.Err? ==> exists j :: 0 <= j < |rows| && Distinct(DatesOf(rows[..j]))
                          && rows[j].0 in DatesOf(rows[..j]) && r.error == DuplicateDate(rows[j].0)
  {
    var truth: OrderedMap<Day, real> := Empty();
    var n := 0;
    while n < |rows|
      invariant 0 <= n <= |rows|
      invariant truth.Valid() && truth.keys == DatesOf(rows[..n])
      invariant Distinct(DatesOf(rows[..n]))
      invariant forall i :: 0 <= i < n ==> truth.entries[rows[i].0] == rows[i].1
    {
      var (date, value) := rows[n];
      if date in truth.entries {
        assert !Distinct(DatesOf(rows)) by {
          var k :| 0 <= k < n && DatesOf(rows[..n])[k] == date;
          assert DatesOf(rows)[k] == DatesOf(rows)[n];
        }
        return Err(DuplicateDate(date));
      }
      truth := truth.Set(date, value);
      assert DatesOf(rows[..n + 1]) == DatesOf(rows[..n]) + [date];
      n := n + 1;
    }
    assert rows[..n] == rows;
    return Ok(truth);
  }
}
