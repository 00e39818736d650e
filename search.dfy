/** The client-side search of `performSearch`: a case-insensitive substring
    match over the configured columns of the rows already loaded. */
module Search {
  import opened JsText
  import opened Rows
  import opened Datasets

  /** The query as `performSearch` derives it from the search box:
      lower-cased, then trimmed. */
  function NormalizeQuery(input: string): (q: string)
    ensures |q| <= |input|
    ensures q == [] || (!IsTrimmable(q[0]) && !IsTrimmable(q[|q| - 1]))
  {
    Trim(Lower(input))
  }

  /** The predicate given to `filter`: some configured column's text,
      lower-cased, contains the query. */
  predicate RowMatches(entry: Row, columns: seq<Column>, query: string) {
    exists j :: 0 <= j < |columns| && Includes(Lower(ColumnText(Unwrap(entry), columns[j].key)), query)
  }

  /** `Array.prototype.filter`: the elements of `s` that `keep` accepts, in
      their order. */
  function SeqFilter<T>(s: seq<T>, keep: T -> bool): (kept: seq<T>)
    ensures |kept| <= |s|
  {
    if s == [] then [] else (if keep(s[0]) then [s[0]] else []) + SeqFilter(s[1..], keep)
  }

  /** `rows.filter(entry => RowMatches(entry, columns, query))`. */
  function Filter(rows: seq<Row>, columns: seq<Column>, query: string): (kept: seq<Row>)
    ensures |kept| <= |rows|
  {
    SeqFilter(rows, entry => RowMatches(entry, columns, query))
  }

  /** The rows a normalized query selects: a copy of all the rows when it
      is empty, the matching rows otherwise. */
  function Selected(rows: seq<Row>, columns: seq<Column>, query: string): (kept: seq<Row>)
    ensures |kept| <= |rows|
    ensures query == [] ==> kept == rows
  {
    if query == [] then rows else Filter(rows, columns, query)
  }

  /** What `performSearch` puts in `filteredData` for the text of the
      search box. */
  function ApplySearch(rows: seq<Row>, columns: seq<Column>, input: string): (kept: seq<Row>)
    ensures |kept| <= |rows|
  {
    Selected(rows, columns, NormalizeQuery(input))
  }

  /** `sub` is the subsequence of `s` at the strictly increasing positions
      `idx`. */
  ghost predicate SubsequenceAt<T>(sub: seq<T>, s: seq<T>, idx: seq<nat>) {
    && |idx| == |sub|
    && (forall k :: 0 <= k < |idx| ==> idx[k] < |s| && sub[k] == s[idx[k]])
    && (forall k, l :: 0 <= k < l < |idx| ==> idx[k] < idx[l])
  }

  /** Adding one to every position of `idx`. */
  function Shifted(idx: seq<nat>): (r: seq<nat>)
    ensures |r| == |idx| && forall k :: 0 <= k < |idx| ==> r[k] == idx[k] + 1
    ensures forall i :: i in r <==> i >= 1 && i - 1 in idx
  {
    if idx == [] then [] else [idx[0] + 1] + Shifted(idx[1..])
  }

  /** A subsequence of `s[1..]` is a subsequence of `s` at the shifted
      positions. */
  lemma SubsequenceSkip<T>(sub: seq<T>, s: seq<T>, idx: seq<nat>)
    requires |s| > 0 && SubsequenceAt(sub, s[1..], idx)
    ensures SubsequenceAt(sub, s, Shifted(idx))
  {
    var sh := Shifted(idx);
    forall k | 0 <= k < |sh| ensures sh[k] < |s| && sub[k] == s[sh[k]] {
      assert s[1..][idx[k]] == s[idx[k] + 1];
    }
  }

  /** Putting `s[0]` in front of a subsequence of `s[1..]` gives a
      subsequence of `s`, at position 0 followed by the shifted positions. */
  lemma SubsequenceCons<T>(sub: seq<T>, s: seq<T>, idx: seq<nat>)
    requires |s| > 0 && SubsequenceAt(sub, s[1..], idx)
    ensures SubsequenceAt([s[0]] + sub, s, [0] + Shifted(idx))
  {
    SubsequenceSkip(sub, s, idx);
    var sh := Shifted(idx);
    var all := [0] + sh;
    forall k, l | 0 <= k < l < |all| ensures all[k] < all[l] {
      if k > 0 {
        assert all[k] == sh[k - 1] && all[l] == sh[l - 1];
      } else {
        assert all[l] == sh[l - 1] >= 1;
      }
    }
    forall k | 0 <= k < |all| ensures all[k] < |s| && ([s[0]] + sub)[k] == s[all[k]] {
      if k > 0 {
        assert all[k] == sh[k - 1];
        assert ([s[0]] + sub)[k] == sub[k - 1];
      }
    }
  }

  /** The filter keeps, in their order, exactly the elements `keep`
      accepts: its result is the subsequence of `s` at the positions of the
      accepted elements. */
  lemma {:induction false} SeqFilterSelects<T>(s: seq<T>, keep: T -> bool) returns (idx: seq<nat>)
    ensures SubsequenceAt(SeqFilter(s, keep), s, idx)
    ensures forall i :: 0 <= i < |s| ==> (i in idx <==> keep(s[i]))
  {
    if s == [] {
      idx := [];
    } else {
      var tail := SeqFilterSelects(s[1..], keep);
      var rest := SeqFilter(s[1..], keep);
      if keep(s[0]) {
        SubsequenceCons(rest, s, tail);
        idx := [0] + Shifted(tail);
        assert SeqFilter(s, keep) == [s[0]] + rest;
      } else {
        SubsequenceSkip(rest, s, tail);
        idx := Shifted(tail);
        assert SeqFilter(s, keep) == rest;
      }
      forall i | 0 <= i < |s| ensures i in idx <==> keep(s[i]) {
        if i > 0 {
          assert s[i] == s[1..][i - 1];
        }
      }
    }
  }

  /** An element is kept exactly when it occurs in `s` and `keep` accepts
      it. */
  lemma {:induction false} SeqFilterMembership<T>(s: seq<T>, keep: T -> bool, x: T)
    ensures x in SeqFilter(s, keep) <==> x in s && keep(x)
  {
    if s != [] {
      SeqFilterMembership(s[1..], keep, x);
      assert s == [s[0]] + s[1..];
    }
  }

  /** Filtering what has already been filtered changes nothing. */
  lemma {:induction false} SeqFilterIdempotent<T>(s: seq<T>, keep: T -> bool)
    ensures SeqFilter(SeqFilter(s, keep), keep) == SeqFilter(s, keep)
  {
    if s != [] {
      SeqFilterIdempotent(s[1..], keep);
      var rest := SeqFilter(s[1..], keep);
      if keep(s[0]) {
        var both := [s[0]] + rest;
        assert SeqFilter(s, keep) == both;
        assert both[0] == s[0] && both[1..] == rest;
        assert SeqFilter(both, keep) == [s[0]] + SeqFilter(rest, keep);
      } else {
        assert SeqFilter(s, keep) == rest;
      }
    }
  }

  /** When `keep` accepts every element, the filter keeps them all. */
  lemma {:induction false} SeqFilterKeepsAll<T>(s: seq<T>, keep: T -> bool)
    requires forall i :: 0 <= i < |s| ==> keep(s[i])
    ensures SeqFilter(s, keep) == s
  {
    if s != [] {
      SeqFilterKeepsAll(s[1..], keep);
    }
  }

  /** When `keep` accepts no element, the filter keeps none. */
  lemma {:induction false} SeqFilterDropsAll<T>(s: seq<T>, keep: T -> bool)
    requires forall i :: 0 <= i < |s| ==> !keep(s[i])
    ensures SeqFilter(s, keep) == []
  {
    if s != [] {
      SeqFilterDropsAll(s[1..], keep);
    }
  }

  /** The search keeps, in their order, exactly the rows that match: the
      result is the subsequence of `rows` at the positions of the matching
      rows. */
  lemma FilterSelects(rows: seq<Row>, columns: seq<Column>, query: string) returns (idx: seq<nat>)
    ensures SubsequenceAt(Filter(rows, columns, query), rows, idx)
    ensures forall i :: 0 <= i < |rows| ==> (i in idx <==> RowMatches(rows[i], columns, query))
  {
    idx := SeqFilterSelects(rows, entry => RowMatches(entry, columns, query));
  }

  /** A row is in the search result exactly when it is one of the loaded
      rows and it matches. */
  lemma FilterMembership(rows: seq<Row>, columns: seq<Column>, query: string, r: Row)
    ensures r in Filter(rows, columns, query) <==> r in rows && RowMatches(r, columns, query)
  {
    SeqFilterMembership(rows, entry => RowMatches(entry, columns, query), r);
  }

  /** Searching the result of a search again with the same query gives the
      same rows. */
  lemma FilterIdempotent(rows: seq<Row>, columns: seq<Column>, query: string)
    ensures Filter(Filter(rows, columns, query), columns, query) == Filter(rows, columns, query)
  {
    SeqFilterIdempotent(rows, entry => RowMatches(entry, columns, query));
  }

  /** With at least one column, every row matches the empty query, so an
      empty query would keep every row even without the special case. */
  lemma EmptyQueryKeepsEveryRow(rows: seq<Row>, columns: seq<Column>)
    requires |columns| > 0
    ensures Filter(rows, columns, []) == rows
  {
    forall i | 0 <= i < |rows| ensures RowMatches(rows[i], columns, []) {
      IncludesEmpty(Lower(ColumnText(Unwrap(rows[i]), columns[0].key)));
    }
    SeqFilterKeepsAll(rows, entry => RowMatches(entry, columns, []));
  }

  /** Both datasets display at least one column, so for them the empty-query
      branch of the search is what filtering by the empty query would give:
      the selection is the filter for every query. */
  lemma SpecialCaseAgreesWithFilter(rows: seq<Row>, key: DatasetKey, query: string)
    ensures Selected(rows, Columns(key), query) == Filter(rows, Columns(key), query)
  {
    if query == [] {
      EmptyQueryKeepsEveryRow(rows, Columns(key));
    }
  }

  /** A search box holding only white space shows every loaded row. */
  lemma BlankInputShowsEveryRow(rows: seq<Row>, columns: seq<Column>, input: string)
    requires forall i :: 0 <= i < |input| ==> IsTrimmable(input[i])
    ensures ApplySearch(rows, columns, input) == rows
  {
    LowerKeepsTrimmable(input);
    TrimEmptyIff(input);
  }

  /** Only a search box holding only white space shows every row
      unconditionally: any other input is a filter query. */
  lemma NonBlankInputFilters(rows: seq<Row>, columns: seq<Column>, input: string)
    requires exists i :: 0 <= i < |input| && !IsTrimmable(input[i])
    ensures ApplySearch(rows, columns, input) == Filter(rows, columns, NormalizeQuery(input))
  {
    var i :| 0 <= i < |input| && !IsTrimmable(input[i]);
    assert !IsTrimmable(Lower(input)[i]);
    TrimEmptyIff(Lower(input));
  }

  /** The search is case-insensitive in its input: typing the query in
      capitals or in lower case selects the same rows. */
  lemma SearchIgnoresCase(rows: seq<Row>, columns: seq<Column>, input: string)
    ensures ApplySearch(rows, columns, Lower(input)) == ApplySearch(rows, columns, input)
  {
    LowerIdempotent(input);
  }

  /** A row whose configured columns are all absent or falsy never matches a
      non-empty query. */
  lemma BlankRowNeverMatches(entry: Row, columns: seq<Column>, query: string)
    requires query != []
    requires forall j :: 0 <= j < |columns| ==> columns[j].key !in Unwrap(entry) || !Truthy(Unwrap(entry)[columns[j].key])
    ensures !RowMatches(entry, columns, query)
  {
    forall j | 0 <= j < |columns| ensures !Includes(Lower(ColumnText(Unwrap(entry), columns[j].key)), query) {
      EmptyIncludesOnlyEmpty(query);
    }
  }

  /** Two rows of the word dataset: `{word: "Ab"}` and `{word: "bc"}`. */
  function ExampleRows(): seq<Row> {
    [Flat(map["word" := Text("Ab")]), Flat(map["word" := Text("bc")])]
  }

  lemma ExampleRowsText()
    ensures Lower(ColumnText(Unwrap(ExampleRows()[0]), Columns(Bogko)[0].key)) == "ab"
    ensures Lower(ColumnText(Unwrap(ExampleRows()[1]), Columns(Bogko)[0].key)) == "bc"
    ensures ColumnText(Unwrap(ExampleRows()[0]), Columns(Bogko)[1].key) == ""
    ensures ColumnText(Unwrap(ExampleRows()[1]), Columns(Bogko)[1].key) == ""
  {
    assert Lower("Ab") == [LowerChar('A')] + Lower("b");
    assert Lower("b") == [LowerChar('b')] + Lower([]);
    assert Lower("bc") == [LowerChar('b')] + Lower("c");
    assert Lower("c") == [LowerChar('c')] + Lower([]);
  }

  lemma ExampleQuery(c: char)
    requires 'a' <= c <= 'z'
    ensures NormalizeQuery([c]) == [c]
  {
    var lowered := Lower([c]);
    assert LowerChar(c) == c;
    assert lowered == [c] by {
      assert |lowered| == 1 && lowered[0] == LowerChar(c);
    }
    assert !IsTrimmable(c);
    TrimKeepsTrimmed([c]);
  }

  /** A row whose word column lower-cases to `text`, with "b" at `k`,
      matches "b". */
  lemma ExampleMatchAt(entry: Row, text: string, k: nat)
    requires Lower(ColumnText(Unwrap(entry), Columns(Bogko)[0].key)) == text
    requires k < |text| && text[k] == 'b'
    ensures RowMatches(entry, Columns(Bogko), "b")
  {
    assert "b" <= text[k..] by {
      assert text[k..][0] == 'b';
    }
    assert Includes(text, "b");
  }

  /** A row none of whose two word-dataset columns contains an "x" does not
      match "x". */
  lemma ExampleMissesX(entry: Row, text: string)
    requires Lower(ColumnText(Unwrap(entry), Columns(Bogko)[0].key)) == text
    requires ColumnText(Unwrap(entry), Columns(Bogko)[1].key) == ""
    requires forall i :: 0 <= i < |text| ==> text[i] != 'x'
    ensures !RowMatches(entry, Columns(Bogko), "x")
  {
    EmptyIncludesOnlyEmpty("x");
    NotIncludesX(text);
    assert Lower("") == "";
  }

  lemma ExampleFilterB()
    ensures Filter(ExampleRows(), Columns(Bogko), "b") == ExampleRows()
  {
    var rows, cols := ExampleRows(), Columns(Bogko);
    ExampleRowsText();
    ExampleMatchAt(rows[0], "ab", 1);
    ExampleMatchAt(rows[1], "bc", 0);
    forall i | 0 <= i < |rows| ensures RowMatches(rows[i], cols, "b") {
      assert i == 0 || i == 1;
    }
    SeqFilterKeepsAll(rows, entry => RowMatches(entry, cols, "b"));
  }

  lemma ExampleFilterX()
    ensures Filter(ExampleRows(), Columns(Bogko), "x") == []
  {
    var rows, cols := ExampleRows(), Columns(Bogko);
    ExampleRowsText();
    ExampleMissesX(rows[0], "ab");
    ExampleMissesX(rows[1], "bc");
    forall i | 0 <= i < |rows| ensures !RowMatches(rows[i], cols, "x") {
      assert i == 0 || i == 1;
    }
    SeqFilterDropsAll(rows, entry => RowMatches(entry, cols, "x"));
  }

  /** The query "b" keeps both example rows. */
  lemma WordSearchKeepsBoth()
    ensures ApplySearch(ExampleRows(), Columns(Bogko), "b") == ExampleRows()
  {
    ExampleQuery('b');
    ExampleFilterB();
  }

  /** The query "x" keeps neither example row, so the table shows its
      empty-state placeholder. */
  lemma WordSearchKeepsNone()
    ensures ApplySearch(ExampleRows(), Columns(Bogko), "x") == []
  {
    ExampleQuery('x');
    ExampleFilterX();
  }

  lemma NotIncludesX(t: string)
    requires forall i :: 0 <= i < |t| ==> t[i] != 'x'
    ensures !Includes(t, "x")
  {
    forall k | 0 <= k <= |t| ensures !("x" <= t[k..]) {
      if k < |t| {
        assert t[k..][0] == t[k];
      }
    }
  }
}
