/** The table transforms of the analysis step on the evaluation log: the
    protein-abbreviation column, and the k_chunks filter that decides whether
    the score boxplots are drawn. Rendering itself is not modelled. */
module Analysis {
  import opened Wrappers

  /** A table cell: text, an integer, or pandas' missing value (NaN). Scores
      are carried as the text they were written as. */
  datatype Cell = Text(s: string) | Int(n: int) | Missing

  /** One row, keyed by column label. */
  type Record = map<string, Cell>

  /** A data frame: its column labels in order, and its rows in order. */
  datatype Table = Table(columns: seq<string>, rows: seq<Record>)

  function ColumnSet(columns: seq<string>): set<string> {
    set c | c in columns
  }

  predicate Distinct(columns: seq<string>) {
    forall i, j :: 0 <= i < j < |columns| ==> columns[i] != columns[j]
  }

  /** Column labels are unique and every row has exactly the table's columns. */
  predicate WellFormed(t: Table) {
    Distinct(t.columns) && forall k :: 0 <= k < |t.rows| ==> t.rows[k].Keys == ColumnSet(t.columns)
  }

  // ---------------------------------------------------------------------
  // add_protein_abbreviations
  // ---------------------------------------------------------------------

  const ProteinAbbreviations: map<string, string> := map[
    "Alcohol_dehydrogenase" := "ADH",
    "Beta_2_microglobulin" := "B2M",
    "Catalase" := "CAT",
    "Cytochrome_c" := "CYTC",
    "Ferritin" := "FT",
    "FtsZ" := "FtsZ",
    "Green_fluorescent_protein" := "GFP",
    "Hemoglobin" := "HB",
    "Insulin" := "INS",
    "Lactase" := "LAC",
    "Myosin" := "MYO",
    "p53" := "p53",
    "Peripherin" := "PRPH",
    "Ubiquitin" := "UB",
    "UGGT" := "UGGT"
  ]

  /** `Series.map(dict)` on one cell: the abbreviation of a listed topic,
      missing for anything else. */
  function AbbreviationOf(topic: Cell): (a: Cell)
    ensures a != Missing <==> topic.Text? && topic.s in ProteinAbbreviations
    ensures a != Missing ==> a == Text(ProteinAbbreviations[topic.s])
  {
    match topic
    case Text(s) => if s in ProteinAbbreviations then Text(ProteinAbbreviations[s]) else Missing
    case _ => Missing
  }

  /** Every column except "Topic" and "Abbreviation", in their order. */
  function WithoutKeyColumns(columns: seq<string>): (rest: seq<string>)
    ensures forall c :: c in rest <==> c in columns && c != "Topic" && c != "Abbreviation"
  {
    if columns == [] then []
    else if columns[0] == "Topic" || columns[0] == "Abbreviation" then WithoutKeyColumns(columns[1..])
    else [columns[0]] + WithoutKeyColumns(columns[1..])
  }

  /** No column is listed twice after the filter if none was before. */
  lemma {:induction false} WithoutKeyColumnsDistinct(columns: seq<string>)
    requires Distinct(columns)
    ensures Distinct(WithoutKeyColumns(columns))
  {
    if columns != [] {
      assert Distinct(columns[1..]);
      assert columns[0] !in columns[1..];
      WithoutKeyColumnsDistinct(columns[1..]);
    }
  }

  /** Filtering a list in two parts filters each part: relative order is kept. */
  lemma {:induction false} WithoutKeyColumnsAppend(a: seq<string>, b: seq<string>)
    ensures WithoutKeyColumns(a + b) == WithoutKeyColumns(a) + WithoutKeyColumns(b)
  {
    if a == [] {
      assert a + b == b;
    } else {
      assert (a + b)[0] == a[0] && (a + b)[1..] == a[1..] + b;
      WithoutKeyColumnsAppend(a[1..], b);
      if a[0] != "Topic" && a[0] != "Abbreviation" {
        calc {
          WithoutKeyColumns(a + b);
          [a[0]] + WithoutKeyColumns(a[1..] + b);
          [a[0]] + (WithoutKeyColumns(a[1..]) + WithoutKeyColumns(b));
          ([a[0]] + WithoutKeyColumns(a[1..])) + WithoutKeyColumns(b);
        }
      }
    }
  }

  /** Columns other than the two key columns are all kept, as they are. */
  lemma {:induction false} WithoutKeyColumnsKeepsOthers(columns: seq<string>)
    requires "Topic" !in columns && "Abbreviation" !in columns
    ensures WithoutKeyColumns(columns) == columns
  {
    if columns != [] {
      WithoutKeyColumnsKeepsOthers(columns[1..]);
    }
  }

  /** Only the two key columns are dropped, each once. */
  lemma {:induction false} WithoutKeyColumnsLength(columns: seq<string>)
    ensures Distinct(columns) ==>
              |WithoutKeyColumns(columns)| + (if "Topic" in columns then 1 else 0)
              + (if "Abbreviation" in columns then 1 else 0) == |columns|
  {
    if columns != [] && Distinct(columns) {
      assert Distinct(columns[1..]);
      assert columns[0] !in columns[1..];
      WithoutKeyColumnsLength(columns[1..]);
    }
  }

  /** "Topic" first, "Abbreviation" second, the rest in their order. */
  function ReorderColumns(columns: seq<string>): (r: seq<string>)
    ensures |r| >= 2 && r[0] == "Topic" && r[1] == "Abbreviation"
    ensures r[2..] == WithoutKeyColumns(columns)
    ensures ColumnSet(r) == ColumnSet(columns) + {"Topic", "Abbreviation"}
    ensures Distinct(columns) ==> Distinct(r)
    ensures Distinct(columns) && "Topic" in columns && "Abbreviation" in columns ==> |r| == |columns|
  {
    WithoutKeyColumnsLength(columns);
    if Distinct(columns) then WithoutKeyColumnsDistinct(columns); ["Topic", "Abbreviation"] + WithoutKeyColumns(columns)
    else ["Topic", "Abbreviation"] + WithoutKeyColumns(columns)
  }

  /** `df["Abbreviation"] = df["Topic"].map(...)`: overwrites the column where
      it is, or appends it as the last column. */
  function AssignAbbreviation(t: Table): (r: Table)
    requires WellFormed(t) && "Topic" in t.columns
    ensures WellFormed(r)
    ensures ColumnSet(r.columns) == ColumnSet(t.columns) + {"Abbreviation"}
    ensures "Abbreviation" in t.columns ==> r.columns == t.columns
    ensures "Abbreviation" !in t.columns ==> r.columns == t.columns + ["Abbreviation"]
    ensures |r.rows| == |t.rows|
    ensures forall k :: 0 <= k < |t.rows| ==>
              "Abbreviation" in r.rows[k]
              && r.rows[k]["Abbreviation"] == AbbreviationOf(t.rows[k]["Topic"])
              && (forall c :: c in t.rows[k] && c != "Abbreviation" ==> c in r.rows[k] && r.rows[k][c] == t.rows[k][c])
  {
    var columns := if "Abbreviation" in t.columns then t.columns else t.columns + ["Abbreviation"];
    var rows := seq(|t.rows|, k requires 0 <= k < |t.rows| =>
      t.rows[k]["Abbreviation" := AbbreviationOf(t.rows[k]["Topic"])]);
    Table(columns, rows)
  }

  /** The table `add_protein_abbreviations` writes back to the file; a table
      without a "Topic" column raises a KeyError. */
  function AddProteinAbbreviations(t: Table): (r: Result<Table>)
    requires WellFormed(t)
    ensures "Topic" !in t.columns ==> r == Err("KeyError: 'Topic'")
    ensures "Topic" in t.columns ==> r.Ok? && WellFormed(r.value)
    ensures "Topic" in t.columns ==>
              |r.value.columns| >= 2
              && r.value.columns[..2] == ["Topic", "Abbreviation"]
              && r.value.columns[2..] == WithoutKeyColumns(t.columns)
              && ColumnSet(r.value.columns) == ColumnSet(t.columns) + {"Abbreviation"}
              && |r.value.rows| == |t.rows|
    ensures "Topic" in t.columns ==>
              forall k :: 0 <= k < |t.rows| ==>
                "Abbreviation" in r.value.rows[k]
                && r.value.rows[k]["Abbreviation"] == AbbreviationOf(t.rows[k]["Topic"])
                && (forall c :: c in t.rows[k] && c != "Abbreviation" ==> c in r.value.rows[k] && r.value.rows[k][c] == t.rows[k][c])
  {
    if "Topic" !in t.columns then Err("KeyError: 'Topic'")
    else
      var withColumn := AssignAbbreviation(t);
      WithoutKeyColumnsAppend(t.columns, ["Abbreviation"]);
      assert WithoutKeyColumns(["Abbreviation"]) == [];
      Ok(Table(ReorderColumns(withColumn.columns), withColumn.rows))
  }

  /** Reordering an already reordered list changes nothing. */
  lemma ReorderColumnsIdempotent(columns: seq<string>)
    ensures ReorderColumns(ReorderColumns(columns)) == ReorderColumns(columns)
  {
    var rest := WithoutKeyColumns(columns);
    assert ReorderColumns(columns) == ["Topic", "Abbreviation"] + rest;
    WithoutKeyColumnsAppend(["Topic", "Abbreviation"], rest);
    WithoutKeyColumnsKeepsOthers(rest);
  }

  /** Re-assigning the column of a table whose every row already holds its
      abbreviation leaves the rows as they are. */
  lemma AssignAbbreviationFixed(u: Table)
    requires WellFormed(u) && "Topic" in u.columns && "Abbreviation" in u.columns
    requires forall k :: 0 <= k < |u.rows| ==> u.rows[k]["Abbreviation"] == AbbreviationOf(u.rows[k]["Topic"])
    ensures AssignAbbreviation(u) == u
  {
    var again := AssignAbbreviation(u);
    forall k | 0 <= k < |u.rows|
      ensures again.rows[k] == u.rows[k]
    {
    }
  }

  /** Adding the abbreviations to a table that already has them changes nothing. */
  lemma AbbreviationsIdempotent(t: Table)
    requires WellFormed(t) && "Topic" in t.columns
    ensures AddProteinAbbreviations(AddProteinAbbreviations(t).value) == AddProteinAbbreviations(t)
  {
    var u := AddProteinAbbreviations(t).value;
    assert u.columns == ReorderColumns(AssignAbbreviation(t).columns);
    forall k | 0 <= k < |u.rows|
      ensures u.rows[k]["Abbreviation"] == AbbreviationOf(u.rows[k]["Topic"])
    {
      assert u.rows[k]["Topic"] == t.rows[k]["Topic"];
    }
    AssignAbbreviationFixed(u);
    ReorderColumnsIdempotent(AssignAbbreviation(t).columns);
  }

  // ---------------------------------------------------------------------
  // plot_boxplots: the k_chunks filter and the empty check
  // ---------------------------------------------------------------------

  /** `str.lower` on one character, restricted to ASCII letters. */
  function LowerChar(c: char): char {
    if 'A' <= c <= 'Z' then (c as int + 32) as char else c
  }

  /** `str.lower`, restricted to ASCII letters. */
  function LowerAscii(s: string): (r: string)
    ensures |r| == |s|
    ensures forall i :: 0 <= i < |s| ==> r[i] == LowerChar(s[i])
  {
    if s == [] then [] else [LowerChar(s[0])] + LowerAscii(s[1..])
  }

  lemma LowerCharIs(c: char, lower: char, upper: char)
    requires 'a' <= lower <= 'z' && upper as int == lower as int - 32
    ensures LowerChar(c) == lower <==> c == lower || c == upper
  {
  }

  /** "all" in some letter case. */
  predicate IsAllInSomeCase(text: string) {
    |text| == 3 && (text[0] == 'a' || text[0] == 'A')
    && (text[1] == 'l' || text[1] == 'L') && (text[2] == 'l' || text[2] == 'L')
  }

  /** The filter value "all" matches in any letter case, and nothing else does. */
  lemma IsAllAnyCase(text: string)
    ensures LowerAscii(text) == "all" <==> IsAllInSomeCase(text)
  {
    var low := LowerAscii(text);
    if |text| == 3 {
      LowerCharIs(text[0], 'a', 'A');
      LowerCharIs(text[1], 'l', 'L');
      LowerCharIs(text[2], 'l', 'L');
      assert low == "all" <==> low[0] == 'a' && low[1] == 'l' && low[2] == 'l';
    } else {
      assert |low| != |"all"|;
    }
  }

  /** Keep every row, or only the rows with a given k_chunks. */
  datatype KFilter = AllRows | KChunks(k: int)

  /** The filter a command-line value stands for; `toInt` is Python's `int`
      on the values it accepts. */
  function ParseKFilter(text: string, toInt: string -> int): KFilter {
    if LowerAscii(text) != "all" then KChunks(toInt(text)) else AllRows
  }

  predicate HasK(row: Record, k: int) {
    "k_chunks" in row && row["k_chunks"] == Int(k)
  }

  /** The rows whose k_chunks is k, in their order. */
  function RowsWithK(rows: seq<Record>, k: int): (kept: seq<Record>)
    ensures |kept| <= |rows|
    ensures forall row :: row in kept <==> row in rows && HasK(row, k)
  {
    if rows == [] then []
    else if HasK(rows[0], k) then [rows[0]] + RowsWithK(rows[1..], k)
    else RowsWithK(rows[1..], k)
  }

  /** Filtering rows in two parts filters each part: row order is kept. */
  lemma {:induction false} RowsWithKAppend(a: seq<Record>, b: seq<Record>, k: int)
    ensures RowsWithK(a + b, k) == RowsWithK(a, k) + RowsWithK(b, k)
  {
    if a == [] {
      assert a + b == b;
    } else {
      assert (a + b)[0] == a[0] && (a + b)[1..] == a[1..] + b;
      RowsWithKAppend(a[1..], b, k);
      if HasK(a[0], k) {
        calc {
          RowsWithK(a + b, k);
          [a[0]] + RowsWithK(a[1..] + b, k);
          [a[0]] + (RowsWithK(a[1..], k) + RowsWithK(b, k));
          ([a[0]] + RowsWithK(a[1..], k)) + RowsWithK(b, k);
        }
      }
    }
  }

  /** When no row has k_chunks k, the filter keeps none. */
  lemma {:induction false} RowsWithKNoneMatch(rows: seq<Record>, k: int)
    requires forall i :: 0 <= i < |rows| ==> !HasK(rows[i], k)
    ensures RowsWithK(rows, k) == []
  {
    if rows != [] {
      RowsWithKNoneMatch(rows[1..], k);
    }
  }

  /** When every row has k_chunks k, the filter keeps all of them. */
  lemma {:induction false} RowsWithKAllMatch(rows: seq<Record>, k: int)
    requires forall i :: 0 <= i < |rows| ==> HasK(rows[i], k)
    ensures RowsWithK(rows, k) == rows
  {
    if rows != [] {
      RowsWithKAllMatch(rows[1..], k);
    }
  }

  /** The table the plots are drawn from; filtering by k_chunks reads that
      column, which raises a KeyError when it is absent. */
  function FilterRows(t: Table, f: KFilter): (r: Result<Table>)
    ensures f.AllRows? ==> r == Ok(t)
    ensures f.KChunks? && "k_chunks" !in t.columns ==> r == Err("KeyError: 'k_chunks'")
    ensures f.KChunks? && "k_chunks" in t.columns ==>
              r.Ok? && r.value.columns == t.columns && |r.value.rows| <= |t.rows|
              && forall row :: row in r.value.rows <==> row in t.rows && HasK(row, f.k)
  {
    match f
    case AllRows => Ok(t)
    case KChunks(k) =>
      if "k_chunks" !in t.columns then Err("KeyError: 'k_chunks'")
      else Ok(Table(t.columns, RowsWithK(t.rows, k)))
  }

  /** `DataFrame.empty`: no rows or no columns. */
  predicate IsEmpty(t: Table) {
    |t.rows| == 0 || |t.columns| == 0
  }

  const Score4oColumn := "GEval 4o score"
  const ScoreMiniColumn := "GEval 4o-mini score"

  /** What one call decides: report that there is no data, or draw the two
      boxplots of `data` and show them or save them under `savedAs`. */
  datatype PlotOutcome = NoData(notice: string) | Rendered(data: Table, savedAs: Option<string>)

  function NoDataNotice(filterText: string): string {
    "No data available for k_chunks = " + filterText
  }

  function PlotFileName(filterText: string): string {
    "boxplots_k" + filterText + ".png"
  }

  /** plot_boxplots up to the drawing: filter, stop on an empty table, else
      draw both score columns (a missing one raises a KeyError). */
  function PlotBoxplots(t: Table, save: bool, filterText: string, toInt: string -> int): (r: Result<PlotOutcome>)
    ensures r.Ok? && r.value.NoData? ==>
              r.value.notice == NoDataNotice(filterText)
              && FilterRows(t, ParseKFilter(filterText, toInt)).Ok?
              && IsEmpty(FilterRows(t, ParseKFilter(filterText, toInt)).value)
    ensures r.Ok? && r.value.Rendered? ==>
              !IsEmpty(r.value.data)
              && Ok(r.value.data) == FilterRows(t, ParseKFilter(filterText, toInt))
              && Score4oColumn in r.value.data.columns && ScoreMiniColumn in r.value.data.columns
              && (r.value.savedAs.Some? <==> save)
              && (save ==> r.value.savedAs.value == PlotFileName(filterText))
    ensures FilterRows(t, ParseKFilter(filterText, toInt)).Ok? && IsEmpty(FilterRows(t, ParseKFilter(filterText, toInt)).value)
            ==> r.Ok? && r.value.NoData?
    ensures ParseKFilter(filterText, toInt).KChunks? && "k_chunks" !in t.columns ==> r == Err("KeyError: 'k_chunks'")
    ensures var f := FilterRows(t, ParseKFilter(filterText, toInt));
            f.Ok? && !IsEmpty(f.value) && Score4oColumn in f.value.columns && ScoreMiniColumn in f.value.columns
            ==> r == Ok(Rendered(f.value, if save then Some(PlotFileName(filterText)) else None))
    ensures var f := FilterRows(t, ParseKFilter(filterText, toInt));
            f.Ok? && !IsEmpty(f.value) && Score4oColumn !in f.value.columns ==> r == Err("KeyError: 'GEval 4o score'")
    ensures var f := FilterRows(t, ParseKFilter(filterText, toInt));
            f.Ok? && !IsEmpty(f.value) && Score4oColumn in f.value.columns && ScoreMiniColumn !in f.value.columns
            ==> r == Err("KeyError: 'GEval 4o-mini score'")
  {
    var filtered := FilterRows(t, ParseKFilter(filterText, toInt));
    if filtered.Err? then Err(filtered.error)
    else if IsEmpty(filtered.value) then Ok(NoData(NoDataNotice(filterText)))
    else if Score4oColumn !in filtered.value.columns then Err("KeyError: 'GEval 4o score'")
    else if ScoreMiniColumn !in filtered.value.columns then Err("KeyError: 'GEval 4o-mini score'")
    else Ok(Rendered(filtered.value, if save then Some(PlotFileName(filterText)) else None))
  }

  /** With "all" in any letter case every row is plotted. */
  lemma AllKeepsEveryRow(t: Table, filterText: string, toInt: string -> int)
    requires IsAllInSomeCase(filterText)
    ensures FilterRows(t, ParseKFilter(filterText, toInt)) == Ok(t)
  {
    IsAllAnyCase(filterText);
  }

  /** Any other value keeps exactly the rows with that k_chunks, in order. */
  lemma KFilterKeepsMatchingRows(t: Table, filterText: string, toInt: string -> int)
    requires LowerAscii(filterText) != "all" && "k_chunks" in t.columns
    ensures FilterRows(t, ParseKFilter(filterText, toInt)) == Ok(Table(t.columns, RowsWithK(t.rows, toInt(filterText))))
    ensures forall row :: row in FilterRows(t, ParseKFilter(filterText, toInt)).value.rows
              <==> row in t.rows && HasK(row, toInt(filterText))
  {
  }

  /** A value no row has yields the notice and no plot. */
  lemma NoMatchingRowsNoPlot(t: Table, save: bool, filterText: string, toInt: string -> int)
    requires LowerAscii(filterText) != "all" && "k_chunks" in t.columns
    requires forall i :: 0 <= i < |t.rows| ==> !HasK(t.rows[i], toInt(filterText))
    ensures PlotBoxplots(t, save, filterText, toInt) == Ok(NoData(NoDataNotice(filterText)))
  {
    RowsWithKNoneMatch(t.rows, toInt(filterText));
  }
}
