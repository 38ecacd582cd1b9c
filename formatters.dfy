/**
 * The two text formatters of auto_report/report.py: `format_summary`, which
 * renders the summary mapping as display lines, and `format_insights`, which
 * turns the narrative text into clean, non-empty lines. Each is a loop that
 * appends to a list; each is specified by a function of its input.
 */
module Formatters {
  import opened Wrappers
  import opened TextClean
  import opened Lines
  import opened Decimal

  /** The summary mapping as `format_summary` reads it: `rows`, `columns` and
      the ordered `missing_values` mapping (column name to count), each of
      which the mapping may lack. */
  datatype Summary = Summary(rows: Option<int>, columns: Option<int>, missingValues: Option<seq<(string, int)>>)

  /** `f"{summary_dict.get(key)}"`: a missing key prints as `None`. */
  function Show(v: Option<int>): (s: string)
    ensures s != [] && !IsSpace(s[|s| - 1]) && Bullet !in s && Star !in s
  {
    match v
    case None => "None"
    case Some(n) =>
      var s := IntToDecimal(n);
      assert forall k :: 0 <= k < |s| ==> s[k] == '-' || IsDigit(s[k]);
      s
  }

  /** `summary_dict.get("missing_values", {})`, in the mapping's order. */
  function MissingEntries(summary: Summary): (entries: seq<(string, int)>)
    ensures summary.missingValues.None? ==> entries == []
    ensures summary.missingValues.Some? ==> entries == summary.missingValues.value
  {
    match summary.missingValues
    case None => []
    case Some(entries) => entries
  }

  const RowsLabel: string := "Total Rows: "
  const ColumnsLabel: string := "Total Columns: "
  const MissingHeader: string := "Missing Values:"

  /** `f"{col}: {count}"`. */
  function MissingLine(col: string, count: int): (line: string)
    ensures col <= line && |line| > |col| + 2
  {
    col + ": " + IntToDecimal(count)
  }

  /** The three fixed lines `format_summary` starts with. */
  function HeaderLines(summary: Summary): (lines: seq<string>)
    ensures |lines| == 3 && lines[2] == MissingHeader
    ensures forall k :: 0 <= k < 3 ==> lines[k] != [] && Bullet !in lines[k] && Star !in lines[k]
  {
    assert forall c :: c in RowsLabel || c in ColumnsLabel || c in MissingHeader ==> !IsMarker(c);
    [RowsLabel + Show(summary.rows), ColumnsLabel + Show(summary.columns), MissingHeader]
  }

  /** One `"{col}: {count}"` line per entry, in order. */
  function MissingLines(entries: seq<(string, int)>): (lines: seq<string>)
    ensures |lines| == |entries|
  {
    seq(|entries|, k requires 0 <= k < |entries| => MissingLine(entries[k].0, entries[k].1))
  }

  /** The lines `format_summary` returns. */
  function SummaryLines(summary: Summary): (lines: seq<string>)
    ensures |lines| == 3 + |MissingEntries(summary)|
  {
    HeaderLines(summary) + MissingLines(MissingEntries(summary))
  }

  /** `format_summary(summary_dict)`: three fixed lines, then one line per
      entry of `missing_values`. */
  method FormatSummary(summary: Summary) returns (lines: seq<string>)
    ensures lines == SummaryLines(summary)
  {
    lines := [RowsLabel + Show(summary.rows), ColumnsLabel + Show(summary.columns), MissingHeader];
    var entries := MissingEntries(summary);
    for i := 0 to |entries|
      invariant lines == HeaderLines(summary) + MissingLines(entries[..i])
    {
      var (col, count) := entries[i];
      assert MissingLines(entries[..i + 1]) == MissingLines(entries[..i]) + [MissingLine(col, count)];
      lines := lines + [MissingLine(col, count)];
    }
    assert entries[..|entries|] == entries;
  }

  /** `format_summary` returns exactly `3 + |missing_values|` lines: the row
      count, the column count, the `Missing Values:` header, then one
      `"{col}: {count}"` line per entry in the mapping's order. */
  lemma SummaryLinesLayout(summary: Summary)
    ensures var lines := SummaryLines(summary);
      && |lines| == 3 + |MissingEntries(summary)|
      && lines[0] == RowsLabel + Show(summary.rows)
      && lines[1] == ColumnsLabel + Show(summary.columns)
      && lines[2] == MissingHeader
      && forall k :: 0 <= k < |MissingEntries(summary)| ==>
           lines[3 + k] == MissingLine(MissingEntries(summary)[k].0, MissingEntries(summary)[k].1)
    ensures summary.missingValues.None? ==>
      SummaryLines(summary) == [RowsLabel + Show(summary.rows), ColumnsLabel + Show(summary.columns), MissingHeader]
  {
  }

  /** Each missing-value line names its column and gives back its count:
      it is the column name, `": "`, and the count written in decimal. */
  lemma MissingLineRoundTrip(col: string, count: int)
    ensures var line := MissingLine(col, count);
      && line[..|col|] == col
      && line[|col|..|col| + 2] == ": "
      && |line| > |col| + 2
      && ParseInt(line[|col| + 2..]) == count
  {
    var line := MissingLine(col, count);
    assert line[|col| + 2..] == IntToDecimal(count);
    IntToDecimalRoundTrip(count);
  }

  // ---------------------------------------------------------------------
  // format_insights
  // ---------------------------------------------------------------------

  /** What every line of `format_insights` is: non-empty, without markers
      and without whitespace at either end. */
  predicate IsCleanLine(l: string) {
    l != [] && Bullet !in l && Star !in l && NoOuterSpace(l)
  }

  /** `[line]` when `if line:` keeps the cleaned line, `[]` otherwise. */
  function Kept(line: string): (kept: seq<string>)
    ensures |kept| <= 1
    ensures kept == [] <==> line == []
    ensures kept != [] ==> kept[0] == line
  {
    if line == [] then [] else [line]
  }

  /** The cleaned pieces that survive: `clean_text` of each piece, in order,
      without the ones that come out empty. */
  function CleanedLines(pieces: seq<string>): (lines: seq<string>)
    ensures |lines| <= |pieces|
  {
    if pieces == [] then [] else Kept(CleanText(pieces[0])) + CleanedLines(pieces[1..])
  }

  /** Every line kept is non-empty, free of markers and of whitespace at its ends. */
  lemma {:induction false} CleanedLinesClean(pieces: seq<string>)
    ensures forall k :: 0 <= k < |CleanedLines(pieces)| ==> IsCleanLine(CleanedLines(pieces)[k])
  {
    if pieces != [] {
      CleanedLinesClean(pieces[1..]);
    }
  }

  /** There are never more lines than pieces. */
  lemma {:induction false} CleanedLinesBound(pieces: seq<string>)
    ensures |CleanedLines(pieces)| <= |pieces|
  {
    if pieces != [] {
      CleanedLinesBound(pieces[1..]);
    }
  }

  /** Cleaning only deletes characters, so pieces without line breaks give lines without them. */
  lemma {:induction false} CleanedLinesNoNewLine(pieces: seq<string>)
    requires forall p :: p in pieces ==> NewLine !in p
    ensures forall l :: l in CleanedLines(pieces) ==> NewLine !in l
  {
    if pieces != [] {
      assert pieces[0] in pieces;
      assert forall p :: p in pieces[1..] ==> p in pieces;
      CleanTextChars(pieces[0]);
      CleanedLinesNoNewLine(pieces[1..]);
    }
  }

  /** Pieces that all clean to the empty string give no lines. */
  lemma {:induction false} CleanedLinesOfBlank(pieces: seq<string>)
    requires forall p :: p in pieces ==> CleanText(p) == []
    ensures CleanedLines(pieces) == []
  {
    if pieces != [] {
      assert pieces[0] in pieces;
      assert forall p :: p in pieces[1..] ==> p in pieces;
      CleanedLinesOfBlank(pieces[1..]);
    }
  }

  /** The lines `format_insights(text)` returns: none is empty, none holds a
      line break or a marker, and none has whitespace at its ends. */
  function InsightLines(text: string): (lines: seq<string>)
    ensures forall k :: 0 <= k < |lines| ==> IsCleanLine(lines[k]) && NewLine !in lines[k]
  {
    var pieces := Split(text);
    CleanedLinesClean(pieces);
    CleanedLinesNoNewLine(pieces);
    CleanedLines(pieces)
  }

  /** `format_insights` returns no more lines than `text.split("\n")` has pieces,
      that is, at most one more than the number of line breaks. */
  lemma InsightLinesBound(text: string)
    ensures |InsightLines(text)| <= |Split(text)| == multiset(text)[NewLine] + 1
  {
    CleanedLinesBound(Split(text));
    SplitCount(text);
  }

  /** `format_insights(text)`: split on `"\n"`, clean each piece, keep the non-empty ones. */
  method FormatInsights(text: string) returns (cleaned: seq<string>)
    ensures cleaned == InsightLines(text)
  {
    var pieces := Split(text);
    cleaned := [];
    for i := 0 to |pieces|
      invariant cleaned == CleanedLines(pieces[..i])
    {
      var line := CleanText(pieces[i]);
      CleanedLinesStep(pieces, i);
      if line != [] {
        cleaned := cleaned + [line];
      }
    }
    assert pieces[..|pieces|] == pieces;
  }

  /** Cleaning keeps the order of the pieces: the lines of `a + b` are the
      lines of `a` followed by the lines of `b`. */
  lemma {:induction false} CleanedLinesAppend(a: seq<string>, b: seq<string>)
    ensures CleanedLines(a + b) == CleanedLines(a) + CleanedLines(b)
  {
    if a != [] {
      assert (a + b)[0] == a[0] && (a + b)[1..] == a[1..] + b;
      CleanedLinesAppend(a[1..], b);
    } else {
      assert a + b == b;
    }
  }

  /** One more piece adds its cleaned form, unless that is empty. */
  lemma CleanedLinesStep(pieces: seq<string>, i: nat)
    requires i < |pieces|
    ensures CleanedLines(pieces[..i + 1]) == CleanedLines(pieces[..i]) + Kept(CleanText(pieces[i]))
  {
    var front := pieces[..i];
    var piece := pieces[i];
    assert pieces[..i + 1] == front + [piece];
    CleanedLinesAppend(front, [piece]);
    CleanedLinesSingle(piece);
  }

  /** A single piece gives its cleaned form, if that is non-empty. */
  lemma CleanedLinesSingle(piece: string)
    ensures CleanedLines([piece]) == Kept(CleanText(piece))
  {
    CleanedLinesCons(piece, []);
    assert [piece] + [] == [piece];
  }

  /** Lines that are already clean and non-empty pass through unchanged. */
  lemma {:induction false} CleanedLinesOfCleanLines(lines: seq<string>)
    requires forall k :: 0 <= k < |lines| ==> IsCleanLine(lines[k])
    ensures CleanedLines(lines) == lines
  {
    if lines != [] {
      CleanTextFixedPoint(lines[0]);
      CleanedLinesOfCleanLines(lines[1..]);
    }
  }

  /** Re-joining the result with `"\n"` and formatting again changes nothing. */
  lemma InsightLinesIdempotent(text: string)
    ensures InsightLines(Join(InsightLines(text))) == InsightLines(text)
  {
    var lines := InsightLines(text);
    if lines == [] {
      assert CleanText([]) == [];
    } else {
      SplitJoin(lines);
      CleanedLinesOfCleanLines(lines);
    }
  }

  /** Text made only of whitespace and markers (the empty text included) gives no lines. */
  lemma InsightLinesOfBlankText(text: string)
    requires forall c :: c in text ==> IsSpace(c) || IsMarker(c)
    ensures InsightLines(text) == []
  {
    var pieces := Split(text);
    SplitPiecesFromText(text);
    forall p | p in pieces ensures CleanText(p) == [] {
      CleanTextOfBlank(p);
    }
    CleanedLinesOfBlank(pieces);
  }

  /** A piece holding any character that is neither whitespace nor a marker yields a line. */
  lemma InsightLinesKeepContent(text: string, k: nat)
    requires k < |text| && !IsSpace(text[k]) && !IsMarker(text[k])
    ensures InsightLines(text) != []
  {
    JoinSplit(text);
    var pieces := Split(text);
    var i :| 0 <= i < |pieces| && text[k] in pieces[i] by {
      JoinedCharInPiece(pieces, k);
    }
    var j :| 0 <= j < |pieces[i]| && pieces[i][j] == text[k];
    CleanTextKeepsContent(pieces[i], j);
    CleanedLinesOfNonBlank(pieces, i);
  }

  /** One piece that cleans to something non-empty is enough for a line. */
  lemma {:induction false} CleanedLinesOfNonBlank(pieces: seq<string>, i: nat)
    requires i < |pieces| && |CleanText(pieces[i])| > 0
    ensures |CleanedLines(pieces)| > 0
  {
    var head := CleanText(pieces[0]);
    if i == 0 {
      assert |Kept(head)| == 1;
    } else {
      CleanedLinesOfNonBlank(pieces[1..], i - 1);
    }
  }

  /** A character of `Join(pieces)` that is not a line break lies in one of the pieces. */
  lemma {:induction false} JoinedCharInPiece(pieces: seq<string>, k: nat)
    requires k < |Join(pieces)| && Join(pieces)[k] != NewLine
    ensures exists i :: 0 <= i < |pieces| && Join(pieces)[k] in pieces[i]
  {
    var p := pieces[0];
    if k < |p| {
      assert Join(pieces)[k] == p[k];
    } else {
      var rest := pieces[1..];
      assert Join(pieces) == p + [NewLine] + Join(rest);
      assert Join(pieces)[k] == Join(rest)[k - |p| - 1];
      JoinedCharInPiece(rest, k - |p| - 1);
      var i :| 0 <= i < |rest| && Join(rest)[k - |p| - 1] in rest[i];
      assert rest[i] == pieces[i + 1];
    }
  }

  /** The worked example: bullets, emphasis markers and blank lines disappear. */
  lemma InsightLinesExample()
    ensures InsightLines("\U{2022} Trend: sales up\n**Risk:** churn\n\n") == ["Trend: sales up", "Risk: churn"]
  {
    ExampleSplit();
    ExampleCleanedPieces();
  }

  lemma ExampleSplit()
    ensures Split("\U{2022} Trend: sales up\n**Risk:** churn\n\n") == ["\U{2022} Trend: sales up", "**Risk:** churn", "", ""]
  {
    var pieces := ["\U{2022} Trend: sales up", "**Risk:** churn", "", ""];
    assert Join(pieces[3..]) == "";
    assert Join(pieces[2..]) == "\n";
    assert Join(pieces[1..]) == "**Risk:** churn\n\n";
    assert Join(pieces) == "\U{2022} Trend: sales up\n**Risk:** churn\n\n";
    SplitJoin(pieces);
  }

  lemma ExampleCleanedPieces()
    ensures CleanedLines(["\U{2022} Trend: sales up", "**Risk:** churn", "", ""]) == ["Trend: sales up", "Risk: churn"]
  {
    CleanTextOfBulletExample();
    CleanTextOfBoldExample();
    CleanedLinesTwoThenBlank("\U{2022} Trend: sales up", "**Risk:** churn");
  }

  lemma CleanedLinesTwoThenBlank(first: string, second: string)
    requires CleanText(first) != [] && CleanText(second) != []
    ensures CleanedLines([first, second, "", ""]) == [CleanText(first), CleanText(second)]
  {
    var blanks: seq<string> := [[], []];
    assert [first, second, "", ""] == [first, second] + blanks;
    CleanedLinesAppend([first, second], blanks);
    CleanedLinesOfTwoBlanks();
    CleanedLinesPair(first, second);
    KeptBoth(CleanText(first), CleanText(second));
  }

  lemma CleanedLinesOfTwoBlanks()
    ensures CleanedLines([[], []]) == []
  {
    assert CleanText([]) == [];
    CleanedLinesCons([], [[]]);
    CleanedLinesCons([], []);
  }

  lemma CleanedLinesPair(p: string, q: string)
    ensures CleanedLines([p, q]) == Kept(CleanText(p)) + Kept(CleanText(q))
  {
    CleanedLinesCons(p, [q]);
    CleanedLinesCons(q, []);
    assert [p, q] == [p] + [q];
    assert [q] == [q] + [];
  }

  lemma KeptBoth(x: string, y: string)
    requires x != [] && y != []
    ensures Kept(x) + Kept(y) == [x, y]
  {
  }

  /** The first piece contributes its cleaned form, unless that is empty. */
  lemma CleanedLinesCons(p: string, rest: seq<string>)
    ensures CleanedLines([p] + rest) == Kept(CleanText(p)) + CleanedLines(rest)
  {
    assert ([p] + rest)[0] == p && ([p] + rest)[1..] == rest;
  }

  /** A leading bullet and the space after it go. */
  lemma CleanTextOfBulletExample()
    ensures CleanText("\U{2022} Trend: sales up") == "Trend: sales up"
  {
    var item := "Trend: sales up";
    assert [Bullet, ' '] + item == "\U{2022} Trend: sales up";
    CleanTextOfBulletItem(item);
  }

  /** Emphasis markers inside a line go. */
  lemma CleanTextOfBoldExample()
    ensures CleanText("**Risk:** churn") == "Risk: churn"
  {
    BoldExampleSpelling();
    BoldExampleCleaned();
  }

  lemma BoldExampleSpelling()
    ensures [Star, Star] + "Risk:" + [Star, Star] + " churn" == "**Risk:** churn"
  {
    var line := [Star, Star] + "Risk:" + [Star, Star] + " churn";
    assert |line| == 15;
  }

  lemma BoldExampleCleaned()
    ensures CleanText([Star, Star] + "Risk:" + [Star, Star] + " churn") == "Risk: churn"
  {
    assert "Risk:" + " churn" == "Risk: churn";
    CleanTextOfBoldLabel("Risk:", " churn");
  }

  /** Numbering such as `1.` is kept. */
  lemma CleanTextKeepsNumbering()
    ensures CleanText("1. Grow") == "1. Grow"
  {
    CleanTextFixedPoint("1. Grow");
  }
}
