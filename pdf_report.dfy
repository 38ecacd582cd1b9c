/**
 * `create_pdf` of auto_report/report.py: the text-only PDF report. The
 * story handed to the PDF builder is modelled as a sequence of flowables
 * (paragraphs with their style, and spacers); fonts, page geometry and the
 * writing of the file are not modelled.
 */
module PdfReport {
  import opened TextClean
  import opened Paths
  import opened Formatters
  import Decimal

  /** The three paragraph styles the report uses: the sample sheet's `Title`
      and `Heading2`, and the report's own `BodyClean` (12 pt on 16 pt leading). */
  datatype ParagraphStyle = TitleStyle | Heading2 | BodyClean

  /** A story element: a paragraph of text in a style, or a blank spacer of
      the given width and height in points. */
  datatype Flowable = Paragraph(text: string, style: ParagraphStyle) | Spacer(width: int, height: int)

  const DefaultPdfName: string := "summary_report.pdf"
  const ReportTitle: string := "AI Summary Report"
  const SummaryHeading: string := "Dataset Summary"
  const InsightsHeading: string := "AI Insights"

  /** One body paragraph per line, each line passed through `clean_text`. */
  function BodyParagraphs(lines: seq<string>): (paragraphs: seq<Flowable>)
    ensures |paragraphs| == |lines|
  {
    seq(|lines|, k requires 0 <= k < |lines| => Paragraph(CleanText(lines[k]), BodyClean))
  }

  /** The story `create_pdf` builds around the summary lines and insight lines it formats. */
  function Story(summaryLines: seq<string>, insightLines: seq<string>): (story: seq<Flowable>)
    ensures |story| == 6 + |summaryLines| + |insightLines|
  {
    [Paragraph(ReportTitle, TitleStyle), Spacer(1, 16), Paragraph(SummaryHeading, Heading2)]
    + BodyParagraphs(summaryLines)
    + [Spacer(1, 20), Paragraph(InsightsHeading, Heading2)]
    + BodyParagraphs(insightLines)
    + [Spacer(1, 20)]
  }

  /** The story `create_pdf(summary, insights, ...)` builds. */
  function PdfStory(summary: Summary, insights: string): (story: seq<Flowable>)
    ensures |story| == 9 + |MissingEntries(summary)| + |InsightLines(insights)|
  {
    Story(SummaryLines(summary), InsightLines(insights))
  }

  /** One more line appends exactly its paragraph. */
  lemma BodyParagraphsSnoc(front: seq<string>, line: string)
    ensures BodyParagraphs(front + [line]) == BodyParagraphs(front) + [Paragraph(CleanText(line), BodyClean)]
  {
    var longer := BodyParagraphs(front + [line]);
    var extended := BodyParagraphs(front) + [Paragraph(CleanText(line), BodyClean)];
    forall k | 0 <= k < |longer|
      ensures longer[k] == extended[k]
    {
      if k < |front| {
        assert (front + [line])[k] == front[k];
      }
    }
  }

  /** Appending the paragraphs of `lines[i]` one at a time builds the paragraphs of `lines`. */
  lemma BodyParagraphsStep(lines: seq<string>, i: nat)
    requires i < |lines|
    ensures BodyParagraphs(lines[..i + 1]) == BodyParagraphs(lines[..i]) + [Paragraph(CleanText(lines[i]), BodyClean)]
  {
    assert lines[..i + 1] == lines[..i] + [lines[i]];
    BodyParagraphsSnoc(lines[..i], lines[i]);
  }

  /** `for line in lines: story.append(Paragraph(clean_text(line), body_style))`. */
  method AppendBodyParagraphs(story: seq<Flowable>, lines: seq<string>) returns (extended: seq<Flowable>)
    ensures extended == story + BodyParagraphs(lines)
  {
    extended := story;
    for i := 0 to |lines|
      invariant extended == story + BodyParagraphs(lines[..i])
    {
      BodyParagraphsStep(lines, i);
      extended := extended + [Paragraph(CleanText(lines[i]), BodyClean)];
    }
    assert lines[..|lines|] == lines;
  }

  /** The story-building part of `create_pdf`: the title, a spacer, the
      summary heading and one paragraph per summary line, a spacer, the
      insights heading and one paragraph per insight line, a spacer. */
  method BuildStory(summaryLines: seq<string>, insightLines: seq<string>) returns (story: seq<Flowable>)
    ensures story == Story(summaryLines, insightLines)
  {
    story := [];
    story := story + [Paragraph(ReportTitle, TitleStyle)];
    story := story + [Spacer(1, 16)];

    story := story + [Paragraph(SummaryHeading, Heading2)];
    story := AppendBodyParagraphs(story, summaryLines);
    story := story + [Spacer(1, 20)];

    story := story + [Paragraph(InsightsHeading, Heading2)];
    story := AppendBodyParagraphs(story, insightLines);
    story := story + [Spacer(1, 20)];
  }

  /** `create_pdf(summary, insights, folder_path, filename)`: returns the path
      `os.path.join(folder_path, filename)` and the story it renders there. */
  method CreatePdf(summary: Summary, insights: string, folderPath: string, filename: string := DefaultPdfName)
    returns (pdfPath: string, story: seq<Flowable>)
    ensures pdfPath == JoinPath(folderPath, filename)
    ensures story == PdfStory(summary, insights)
  {
    pdfPath := JoinPath(folderPath, filename);
    var summaryLines := FormatSummary(summary);
    var insightLines := FormatInsights(insights);
    story := BuildStory(summaryLines, insightLines);
  }

  /** Where each element of the story sits, for any summary and insight lines. */
  lemma StoryLayout(summaryLines: seq<string>, insightLines: seq<string>)
    ensures var story := Story(summaryLines, insightLines);
      var n := |summaryLines|;
      var m := |insightLines|;
      && |story| == 6 + n + m
      && story[0] == Paragraph(ReportTitle, TitleStyle)
      && story[1] == Spacer(1, 16)
      && story[2] == Paragraph(SummaryHeading, Heading2)
      && (forall k :: 0 <= k < n ==> story[3 + k] == Paragraph(CleanText(summaryLines[k]), BodyClean))
      && story[3 + n] == Spacer(1, 20)
      && story[4 + n] == Paragraph(InsightsHeading, Heading2)
      && (forall k :: 0 <= k < m ==> story[5 + n + k] == Paragraph(CleanText(insightLines[k]), BodyClean))
      && story[5 + n + m] == Spacer(1, 20)
  {
    StoryFixedParts(summaryLines, insightLines);
    StorySummaryPart(summaryLines, insightLines);
    StoryInsightPart(summaryLines, insightLines);
    BodyParagraphsAt(summaryLines);
    BodyParagraphsAt(insightLines);
  }

  lemma BodyParagraphsAt(lines: seq<string>)
    ensures forall k :: 0 <= k < |lines| ==> BodyParagraphs(lines)[k] == Paragraph(CleanText(lines[k]), BodyClean)
  {
  }

  lemma StoryFixedParts(summaryLines: seq<string>, insightLines: seq<string>)
    ensures var story := Story(summaryLines, insightLines);
      var n := |summaryLines|;
      var m := |insightLines|;
      && |story| == 6 + n + m
      && story[0] == Paragraph(ReportTitle, TitleStyle)
      && story[1] == Spacer(1, 16)
      && story[2] == Paragraph(SummaryHeading, Heading2)
      && story[3 + n] == Spacer(1, 20)
      && story[4 + n] == Paragraph(InsightsHeading, Heading2)
      && story[5 + n + m] == Spacer(1, 20)
  {
  }

  lemma StorySummaryPart(summaryLines: seq<string>, insightLines: seq<string>)
    ensures var story := Story(summaryLines, insightLines);
      forall k :: 0 <= k < |summaryLines| ==> story[3 + k] == BodyParagraphs(summaryLines)[k]
  {
  }

  lemma StoryInsightPart(summaryLines: seq<string>, insightLines: seq<string>)
    ensures var story := Story(summaryLines, insightLines);
      forall k :: 0 <= k < |insightLines| ==> story[5 + |summaryLines| + k] == BodyParagraphs(insightLines)[k]
  {
  }

  /** The story is, in order: the title and a 16 pt spacer; the summary
      heading, one body paragraph per `format_summary` line and a 20 pt
      spacer; the insights heading, one body paragraph per `format_insights`
      line (unchanged, as those lines are already clean) and a 20 pt spacer.
      So it has `6 + n + m` elements. */
  lemma PdfStoryLayout(summary: Summary, insights: string)
    ensures var story := PdfStory(summary, insights);
      var summaryLines := SummaryLines(summary);
      var insightLines := InsightLines(insights);
      var n := |summaryLines|;
      var m := |insightLines|;
      && |story| == 6 + n + m
      && story[0] == Paragraph(ReportTitle, TitleStyle)
      && story[1] == Spacer(1, 16)
      && story[2] == Paragraph(SummaryHeading, Heading2)
      && (forall k :: 0 <= k < n ==> story[3 + k] == Paragraph(CleanText(summaryLines[k]), BodyClean))
      && story[3 + n] == Spacer(1, 20)
      && story[4 + n] == Paragraph(InsightsHeading, Heading2)
      && (forall k :: 0 <= k < m ==> story[5 + n + k] == Paragraph(insightLines[k], BodyClean))
      && story[5 + n + m] == Spacer(1, 20)
  {
    var insightLines := InsightLines(insights);
    StoryLayout(SummaryLines(summary), insightLines);
    forall k | 0 <= k < |insightLines|
      ensures CleanText(insightLines[k]) == insightLines[k]
    {
      CleanTextFixedPoint(insightLines[k]);
    }
  }

  /** With no `missing_values` and no insight lines the story has just its nine fixed elements. */
  lemma PdfStoryMinimal(summary: Summary, insights: string)
    requires summary.missingValues.None?
    requires forall c :: c in insights ==> IsSpace(c) || IsMarker(c)
    ensures |PdfStory(summary, insights)| == 9
  {
    InsightLinesOfBlankText(insights);
  }

  /** A fixed title or heading has no marker and no whitespace at its ends. */
  predicate IsPlainHeading(s: string) {
    Bullet !in s && Star !in s && NoOuterSpace(s)
  }

  lemma HeadingsPlain()
    ensures IsPlainHeading(ReportTitle) && IsPlainHeading(SummaryHeading) && IsPlainHeading(InsightsHeading)
  {
    ReportTitlePlain();
    SummaryHeadingPlain();
    InsightsHeadingPlain();
  }

  lemma ReportTitlePlain()
    ensures IsPlainHeading(ReportTitle)
  {
    assert ReportTitle[0] == 'A' && ReportTitle[|ReportTitle| - 1] == 't';
  }

  lemma SummaryHeadingPlain()
    ensures IsPlainHeading(SummaryHeading)
  {
    assert SummaryHeading[0] == 'D' && SummaryHeading[|SummaryHeading| - 1] == 'y';
  }

  lemma InsightsHeadingPlain()
    ensures IsPlainHeading(InsightsHeading)
  {
    assert InsightsHeading[0] == 'A' && InsightsHeading[|InsightsHeading| - 1] == 's';
  }

  /** Every paragraph of the story is free of `•` and `*` and of whitespace at its ends. */
  lemma StoryParagraphsClean(summaryLines: seq<string>, insightLines: seq<string>)
    ensures forall f :: f in Story(summaryLines, insightLines) && f.Paragraph? ==>
      Bullet !in f.text && Star !in f.text && NoOuterSpace(f.text)
  {
    HeadingsPlain();
    var story := Story(summaryLines, insightLines);
    StoryLayout(summaryLines, insightLines);
    forall f | f in story && f.Paragraph?
      ensures Bullet !in f.text && Star !in f.text && NoOuterSpace(f.text)
    {
      var i :| 0 <= i < |story| && story[i] == f;
    }
  }

  /** Every paragraph of the report is free of `•` and `*` and of whitespace at its ends. */
  lemma PdfStoryParagraphsClean(summary: Summary, insights: string)
    ensures forall f :: f in PdfStory(summary, insights) && f.Paragraph? ==>
      Bullet !in f.text && Star !in f.text && NoOuterSpace(f.text)
  {
    StoryParagraphsClean(SummaryLines(summary), InsightLines(insights));
  }

  /** The row and column lines and the `Missing Values:` header, the first
      three lines of `format_summary`, reach the PDF unchanged. */
  lemma SummaryHeadersUnchanged(summary: Summary)
    ensures CleanText(RowsLabel + Show(summary.rows)) == RowsLabel + Show(summary.rows)
    ensures CleanText(ColumnsLabel + Show(summary.columns)) == ColumnsLabel + Show(summary.columns)
    ensures CleanText(MissingHeader) == MissingHeader
  {
    LabelledValueUnchanged(RowsLabel, Show(summary.rows));
    LabelledValueUnchanged(ColumnsLabel, Show(summary.columns));
    MissingHeaderUnchanged();
  }

  lemma MissingHeaderUnchanged()
    ensures CleanText(MissingHeader) == MissingHeader
  {
    assert MissingHeader[0] == 'M' && MissingHeader[|MissingHeader| - 1] == ':';
    CleanTextFixedPoint(MissingHeader);
  }

  /** A label that starts with a letter, followed by a rendered value, has nothing for `clean_text` to remove. */
  lemma LabelledValueUnchanged(tag: string, value: string)
    requires tag != [] && 'A' <= tag[0] <= 'Z' && Bullet !in tag && Star !in tag
    requires value != [] && !IsSpace(value[|value| - 1]) && Bullet !in value && Star !in value
    ensures CleanText(tag + value) == tag + value
  {
    var line := tag + value;
    assert line[0] == tag[0] && line[|line| - 1] == value[|value| - 1];
    CleanTextFixedPoint(line);
  }

  /** A missing-value line reaches the PDF unchanged unless its column name
      holds a marker or starts with whitespace. */
  lemma MissingLineUnchanged(col: string, count: int)
    requires Bullet !in col && Star !in col
    requires col == [] || !IsSpace(col[0])
    ensures CleanText(MissingLine(col, count)) == MissingLine(col, count)
  {
    var line := MissingLine(col, count);
    var digits := Decimal.IntToDecimal(count);
    assert forall k :: 0 <= k < |digits| ==> digits[k] == '-' || Decimal.IsDigit(digits[k]);
    assert line == col + ": " + digits;
    assert line[0] == if col == [] then ':' else col[0];
    assert line[|line| - 1] == digits[|digits| - 1];
    CleanTextFixedPoint(line);
  }

  /** Called with the default name, the report is written as `summary_report.pdf` in the folder. */
  lemma DefaultPdfPath(folderPath: string)
    ensures Basename(JoinPath(folderPath, DefaultPdfName)) == DefaultPdfName
  {
    assert Sep !in DefaultPdfName;
    BasenameOfJoin(folderPath, DefaultPdfName);
  }
}
