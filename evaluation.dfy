/** Grading a generated page: the annotated copy of the page with both GEval
    scores, and the cumulative evaluation log whose header is written once.
    The two scorers are remote; their scores and reasons arrive here as
    opaque text, as `str()` renders them. */
module Evaluation {
  import opened Wrappers
  import opened FileSystem

  /** One row of the evaluation log, as the CSV writer receives it. */
  type Row = seq<string>

  /** The log's header row. */
  const LogHeader: Row := ["Topic", "GEval 4o score", "GEval 4o-mini score"]

  /** What one evaluation run produced: the topic keyword, and the score and
      reason of the gpt-4o and the gpt-4o-mini scorer. */
  datatype Grade = Grade(keyword: string, score4o: string, reason4o: string, scoreMini: string, reasonMini: string)

  /** The data row of one run: keyword, then the 4o score, then the 4o-mini score. */
  function DataRow(g: Grade): Row {
    [g.keyword, g.score4o, g.scoreMini]
  }

  // ---------------------------------------------------------------------
  // The evaluation log
  // ---------------------------------------------------------------------

  /** The log after one run: unchanged when logging is off, the header and the
      data row when it was empty, otherwise the data row appended. */
  function LoggedRows(rows: seq<Row>, enabled: bool, g: Grade): (r: seq<Row>)
    ensures !enabled ==> r == rows
    ensures enabled && rows == [] ==> r == [LogHeader, DataRow(g)]
    ensures enabled && rows != [] ==> |r| == |rows| + 1 && r[..|rows|] == rows && r[|rows|] == DataRow(g)
    ensures enabled ==> |r[|r| - 1]| == 3 && r[|r| - 1][0] == g.keyword && r[|r| - 1][2] == g.scoreMini
  {
    if !enabled then rows
    else if rows == [] then [LogHeader, DataRow(g)]
    else rows + [DataRow(g)]
  }

  /** The log after one logged run per grade, in order. */
  function AppendAll(rows: seq<Row>, grades: seq<Grade>): seq<Row>
    decreases |grades|
  {
    if grades == [] then rows else AppendAll(LoggedRows(rows, true, grades[0]), grades[1..])
  }

  /** The data rows of a sequence of grades, in order. */
  function RowsOf(grades: seq<Grade>): (rs: seq<Row>)
    ensures |rs| == |grades|
    ensures forall i :: 0 <= i < |grades| ==> rs[i] == DataRow(grades[i])
  {
    seq(|grades|, i requires 0 <= i < |grades| => DataRow(grades[i]))
  }

  lemma RowsOfCons(grades: seq<Grade>)
    requires grades != []
    ensures RowsOf(grades) == [DataRow(grades[0])] + RowsOf(grades[1..])
  {
  }

  /** Appending to a log that has rows only adds data rows, one per run, in
      call order; nothing is deduplicated. */
  lemma {:induction false} AppendAllKeepsRows(rows: seq<Row>, grades: seq<Grade>)
    requires rows != []
    ensures AppendAll(rows, grades) == rows + RowsOf(grades)
    decreases |grades|
  {
    if grades == [] {
      assert RowsOf(grades) == [];
    } else {
      var next := rows + [DataRow(grades[0])];
      calc {
        AppendAll(rows, grades);
        AppendAll(LoggedRows(rows, true, grades[0]), grades[1..]);
        AppendAll(next, grades[1..]);
        { AppendAllKeepsRows(next, grades[1..]); }
        next + RowsOf(grades[1..]);
        rows + ([DataRow(grades[0])] + RowsOf(grades[1..]));
        { RowsOfCons(grades); }
        rows + RowsOf(grades);
      }
    }
  }

  /** The first run on an empty log writes the header, and every later run
      appends to a log that has rows. */
  lemma {:induction false} EmptyLogRuns(grades: seq<Grade>)
    requires grades != []
    ensures AppendAll([], grades) == [LogHeader] + RowsOf(grades)
  {
    var rest := grades[1..];
    var first := [LogHeader, DataRow(grades[0])];
    calc {
      AppendAll([], grades);
      AppendAll(LoggedRows([], true, grades[0]), rest);
      AppendAll(first, rest);
      { AppendAllKeepsRows(first, rest); }
      first + RowsOf(rest);
      [LogHeader] + ([DataRow(grades[0])] + RowsOf(rest));
      { RowsOfCons(grades); }
      [LogHeader] + RowsOf(grades);
    }
  }

  /** Starting from an empty log, n runs leave exactly one header, first,
      followed by the n data rows in call order. */
  lemma HeaderWrittenOnce(grades: seq<Grade>)
    requires grades != []
    ensures |AppendAll([], grades)| == |grades| + 1
    ensures AppendAll([], grades)[0] == LogHeader
    ensures forall i :: 1 <= i <= |grades| ==> AppendAll([], grades)[i] == DataRow(grades[i - 1])
  {
    EmptyLogRuns(grades);
  }

  /** The log file, read fully and appended to. */
  class EvaluationLog {
    var rows: seq<Row>

    constructor (existing: seq<Row>)
      ensures rows == existing
    {
      rows := existing;
    }

    /** Reads the existing rows; writes the header if there were none; then
        writes the data row. Does nothing when logging is off. */
    method Append(enabled: bool, g: Grade)
      modifies this
      ensures rows == LoggedRows(old(rows), enabled, g)
    {
      if enabled {
        var existing := rows;
        if existing == [] {
          rows := rows + [LogHeader];
        }
        rows := rows + [DataRow(g)];
      }
    }
  }

  // ---------------------------------------------------------------------
  // The annotated report
  // ---------------------------------------------------------------------

  const EvalMarker := "[Eval]"
  const FooterTitle := "## Evaluation\n"

  /** The report is written next to the page, under the marked name. */
  function ReportPath(toBeEvaluated: string): (path: string)
    ensures |path| == |toBeEvaluated| + 6
    ensures path[..6] == "[Eval]" && path[6..] == toBeEvaluated
  {
    EvalMarker + toBeEvaluated
  }

  /** One labelled score and its reason. */
  function ScoreBlock(model: string, score: string, reason: string): string {
    "GEval " + model + " correctness score: " + score + "\nReason: " + reason
  }

  /** The footer as the source writes it: the 4o-mini block repeats the 4o
      score and reason. */
  function FooterAsWritten(g: Grade): (f: string)
    ensures |f| >= |FooterTitle| && f[..|FooterTitle|] == FooterTitle
    ensures var block4o := ScoreBlock("4o", g.score4o, g.reason4o);
            |f| >= |FooterTitle| + |block4o| && f[|FooterTitle|..|FooterTitle| + |block4o|] == block4o
    ensures var mini := ScoreBlock("4o-mini", g.score4o, g.reason4o);
            |f| >= |mini| && f[|f| - |mini|..] == mini
  {
    FooterTitle + ScoreBlock("4o", g.score4o, g.reason4o) + "\n\n" + ScoreBlock("4o-mini", g.score4o, g.reason4o)
  }

  /** The footer each block of which reports its own scorer. */
  function Footer(g: Grade): (f: string)
    ensures |f| >= |FooterTitle| && f[..|FooterTitle|] == FooterTitle
    ensures f == FooterTitle + ScoreBlock("4o", g.score4o, g.reason4o) + "\n\n"
                 + ScoreBlock("4o-mini", g.scoreMini, g.reasonMini)
  {
    FooterTitle + ScoreBlock("4o", g.score4o, g.reason4o) + "\n\n" + ScoreBlock("4o-mini", g.scoreMini, g.reasonMini)
  }

  /** As written, the footer does not depend on the 4o-mini scorer at all. */
  lemma FooterAsWrittenIgnoresMini(g: Grade, h: Grade)
    requires g.score4o == h.score4o && g.reason4o == h.reason4o
    ensures FooterAsWritten(g) == FooterAsWritten(h)
  {
  }

  /** A run whose two scorers disagree gets a footer that misreports 4o-mini. */
  lemma FooterAsWrittenMisreports()
    ensures FooterAsWritten(Grade("Ferritin", "5", "r", "3", "r")) != Footer(Grade("Ferritin", "5", "r", "3", "r"))
  {
    var g := Grade("Ferritin", "5", "r", "3", "r");
    var k := |FooterTitle + ScoreBlock("4o", "5", "r") + "\n\n" + "GEval 4o-mini correctness score: "|;
    assert FooterAsWritten(g)[k] == '5';
    assert Footer(g)[k] == '3';
  }

  /** Equal texts with a common prefix have equal remainders. */
  lemma CancelPrefix(p: string, a: string, b: string)
    requires p + a == p + b
    ensures a == b
  {
    assert a == (p + a)[|p|..];
  }

  /** Equal texts with a common prefix and suffix have equal middles. */
  lemma CancelAround(p: string, a: string, b: string, s: string)
    requires p + a + s == p + b + s
    ensures a == b
  {
    assert |a| == |b|;
    assert a == (p + a + s)[|p|..|p| + |a|];
    assert b == (p + b + s)[|p|..|p| + |b|];
  }

  /** The footer determines the 4o-mini score: two runs that agree on
      everything else but write the same footer had the same 4o-mini score. */
  lemma FooterReportsMiniScore(g: Grade, h: Grade)
    requires g.score4o == h.score4o && g.reason4o == h.reason4o && g.reasonMini == h.reasonMini
    requires Footer(g) == Footer(h)
    ensures g.scoreMini == h.scoreMini
  {
    var prefix := FooterTitle + ScoreBlock("4o", g.score4o, g.reason4o) + "\n\n" + "GEval 4o-mini correctness score: ";
    var suffix := "\nReason: " + g.reasonMini;
    assert Footer(g) == prefix + g.scoreMini + suffix;
    assert Footer(h) == prefix + h.scoreMini + suffix;
    CancelAround(prefix, g.scoreMini, h.scoreMini, suffix);
  }

  /** The footer determines the 4o-mini reason: two runs that agree on all
      scores and the 4o reason and write the same footer had the same 4o-mini
      reason. */
  lemma FooterReportsMiniReason(g: Grade, h: Grade)
    requires g.score4o == h.score4o && g.reason4o == h.reason4o && g.scoreMini == h.scoreMini
    requires Footer(g) == Footer(h)
    ensures g.reasonMini == h.reasonMini
  {
    var prefix := FooterTitle + ScoreBlock("4o", g.score4o, g.reason4o) + "\n\n"
                  + "GEval 4o-mini correctness score: " + g.scoreMini + "\nReason: ";
    assert Footer(g) == prefix + g.reasonMini;
    assert Footer(h) == prefix + h.reasonMini;
    CancelPrefix(prefix, g.reasonMini, h.reasonMini);
  }

  /** The report: the page as read, then the evaluation footer. */
  function ReportContent(actualOutput: string, g: Grade): (content: string)
    ensures |content| >= |actualOutput| + |FooterTitle|
    ensures content[..|actualOutput|] == actualOutput
    ensures content[|actualOutput|..|actualOutput| + |FooterTitle|] == "## Evaluation\n"
  {
    actualOutput + Footer(g)
  }

  /** One evaluation run: read the page and the reference, write the report,
      then log the grade if asked to. A missing input file aborts the run
      before anything is written. The scorers' grade is an input. */
  method CalculateGevalCorrectness(fs: FileStore, log: EvaluationLog, toBeEvaluated: string,
                                   referenceText: string, csvEnabled: bool, g: Grade)
    returns (r: Result<()>)
    modifies fs, log
    ensures fs.dirs == old(fs.dirs)
    ensures toBeEvaluated !in old(fs.files) ==>
              r == Err("No such file or directory: " + toBeEvaluated)
              && fs.files == old(fs.files) && log.rows == old(log.rows)
    ensures toBeEvaluated in old(fs.files) && referenceText !in old(fs.files) ==>
              r == Err("No such file or directory: " + referenceText)
              && fs.files == old(fs.files) && log.rows == old(log.rows)
    ensures toBeEvaluated in old(fs.files) && referenceText in old(fs.files) ==>
              r == Ok(())
              && fs.files == old(fs.files)[ReportPath(toBeEvaluated) := ReportContent(old(fs.files)[toBeEvaluated], g)]
              && log.rows == LoggedRows(old(log.rows), csvEnabled, g)
  {
    if toBeEvaluated !in fs.files {
      return Err("No such file or directory: " + toBeEvaluated);
    }
    var actualOutput := fs.files[toBeEvaluated];
    if referenceText !in fs.files {
      return Err("No such file or directory: " + referenceText);
    }
    fs.Write(EvalMarker + toBeEvaluated, actualOutput + Footer(g));
    log.Append(csvEnabled, g);
    r := Ok(());
  }
}
