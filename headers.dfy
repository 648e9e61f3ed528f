/**
 * Classification of the header row of the raw Wikipedia counts file
 * (make_figures.py, lines 83-104 and the routing test on line 120).
 *
 * A header other than `timestamp` is split on '-'. With two or more parts it
 * names a (project, article) column whose article is the remaining parts
 * joined with nothing, so the hyphens disappear; with one part it names the
 * project's total column.
 */
module Headers {
  import opened Wrappers

  const TimestampHeader: string := "timestamp"
  const Hyphen: char := '-'

  /** A data column of the counts file. */
  datatype Column =
    | ArticleColumn(project: string, article: string)
    | TotalColumn(project: string)

  /** Where a column's values are accumulated. */
  datatype Target =
    | ToArticle(project: string, article: string)
    | ToTotal(project: string)

  /** Python's `s.split(sep)`: never empty, and empty parts are kept. */
  function Split(s: string, sep: char): (parts: seq<string>)
    ensures |parts| >= 1
    decreases |s|
  {
    if |s| == 0 then [""]
    else
      var rest := Split(s[1..], sep);
      if s[0] == sep then [""] + rest
      else [[s[0]] + rest[0]] + rest[1..]
  }

  /** `sep.join(parts)`. */
  function JoinWith(parts: seq<string>, sep: char): string
    requires |parts| >= 1
    decreases |parts|
  {
    if |parts| == 1 then parts[0] else parts[0] + [sep] + JoinWith(parts[1..], sep)
  }

  /** `''.join(parts)`: the characters of the parts and no others, the first part first. */
  function Concat(parts: seq<string>): (r: string)
    ensures forall c :: c in r <==> exists i :: 0 <= i < |parts| && c in parts[i]
    ensures parts != [] ==> |parts[0]| <= |r| && r[..|parts[0]|] == parts[0]
    decreases |parts|
  {
    if parts == [] then ""
    else
      var rest := Concat(parts[1..]);
      assert forall i :: 1 <= i < |parts| ==> parts[1..][i - 1] == parts[i];
      parts[0] + rest
  }

  /** `s` with every occurrence of `c` removed, and every other character kept. */
  function Remove(s: string, c: char): (r: string)
    ensures c !in r
    ensures |r| <= |s|
    ensures forall x :: x != c ==> multiset(r)[x] == multiset(s)[x]
    decreases |s|
  {
    if s == [] then ""
    else
      assert s == [s[0]] + s[1..];
      (if s[0] == c then "" else [s[0]]) + Remove(s[1..], c)
  }

  /**
   * The column a header names, or None for the `timestamp` header
   * (make_figures.py:85-104).
   */
  function Classify(header: string): (c: Option<Column>)
    ensures c.None? <==> header == TimestampHeader
  {
    if header == TimestampHeader then None
    else
      var parts := Split(header, Hyphen);
      if |parts| >= 2 then Some(ArticleColumn(parts[0], Concat(parts[1..])))
      else Some(TotalColumn(parts[0]))
  }

  /**
   * Line 120 tests `if article:`, so a project total and an article column
   * whose article is empty both go to the project total.
   */
  function Route(c: Column): (t: Target)
    ensures t.project == c.project
    ensures t.ToArticle? <==> c.ArticleColumn? && c.article != ""
    ensures t.ToArticle? ==> t.article == c.article
  {
    match c
    case ArticleColumn(p, a) => if a != "" then ToArticle(p, a) else ToTotal(p)
    case TotalColumn(p) => ToTotal(p)
  }

  /** Joining the parts of a split with the separator gives back the string. */
  lemma {:induction false} JoinSplit(s: string, sep: char)
    ensures JoinWith(Split(s, sep), sep) == s
    decreases |s|
  {
    if |s| > 0 {
      var rest := Split(s[1..], sep);
      JoinSplit(s[1..], sep);
      if s[0] == sep {
        assert s == [sep] + s[1..];
      } else if |rest| == 1 {
        assert s == [s[0]] + s[1..];
      } else {
        assert JoinWith(rest, sep) == rest[0] + [sep] + JoinWith(rest[1..], sep);
        assert s == [s[0]] + s[1..];
      }
    }
  }

  /** No part of a split contains the separator. */
  lemma {:induction false} SplitPartsFree(s: string, sep: char)
    ensures forall i :: 0 <= i < |Split(s, sep)| ==> sep !in Split(s, sep)[i]
    decreases |s|
  {
    if |s| > 0 {
      SplitPartsFree(s[1..], sep);
    }
  }

  /** Concatenating the parts of a split removes the separators. */
  lemma {:induction false} ConcatSplit(s: string, sep: char)
    ensures Concat(Split(s, sep)) == Remove(s, sep)
    decreases |s|
  {
    if |s| > 0 {
      var rest := Split(s[1..], sep);
      ConcatSplit(s[1..], sep);
      if s[0] != sep {
        assert Concat(rest) == rest[0] + Concat(rest[1..]);
        assert Concat([[s[0]] + rest[0]] + rest[1..]) == [s[0]] + rest[0] + Concat(rest[1..]);
      }
    }
  }

  /** A split breaks at the first separator. */
  lemma {:induction false} SplitAtFirst(p: string, rest: string, sep: char)
    requires sep !in p
    ensures Split(p + [sep] + rest, sep) == [p] + Split(rest, sep)
    decreases |p|
  {
    if p == [] {
      assert p + [sep] + rest == [sep] + rest;
      assert ([sep] + rest)[1..] == rest;
    } else {
      SplitAtFirst(p[1..], rest, sep);
      assert (p + [sep] + rest)[1..] == p[1..] + [sep] + rest;
      assert [p[0]] + p[1..] == p;
    }
  }

  /**
   * A header with a hyphen names the column of the project before its first
   * hyphen and of the article after it, hyphens removed.
   */
  lemma ClassifyArticleHeader(project: string, rest: string)
    requires Hyphen !in project
    ensures Classify(project + [Hyphen] + rest) == Some(ArticleColumn(project, Remove(rest, Hyphen)))
  {
    var h := project + [Hyphen] + rest;
    assert h[|project|] == Hyphen;
    assert h != TimestampHeader by {
      assert Hyphen !in TimestampHeader;
    }
    SplitAtFirst(project, rest, Hyphen);
    assert ([project] + Split(rest, Hyphen))[1..] == Split(rest, Hyphen);
    ConcatSplit(rest, Hyphen);
  }

  /** A header without a hyphen, other than `timestamp`, names a project total. */
  lemma {:induction false} ClassifyTotalHeader(header: string)
    requires Hyphen !in header && header != TimestampHeader
    ensures Classify(header) == Some(TotalColumn(header))
  {
    SplitWithout(header, Hyphen);
  }

  lemma {:induction false} SplitWithout(s: string, sep: char)
    requires sep !in s
    ensures Split(s, sep) == [s]
    decreases |s|
  {
    if |s| > 0 {
      SplitWithout(s[1..], sep);
      assert [s[0]] + s[1..] == s;
    }
  }

  /**
   * The quirk of a header such as `en-`: its article is empty, so its
   * values are added to the project total.
   */
  lemma TrailingHyphenRoutesToTotal(project: string)
    requires Hyphen !in project
    ensures Classify(project + [Hyphen]) == Some(ArticleColumn(project, ""))
    ensures Route(ArticleColumn(project, "")) == ToTotal(project)
  {
    assert project + [Hyphen] == project + [Hyphen] + "";
    ClassifyArticleHeader(project, "");
  }
}
