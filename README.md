# AutoReport AI report writers, modelled in Dafny

This project models the report stage of AutoReport AI, which is
`auto_report/report.py`. That stage turns a dataset summary, narrative
insights and chart images into two documents:

- a text-only PDF, made of a summary section and an insights section;
- a graphs-only slide deck, made of a title slide, an optional correlation heatmap and one distribution chart per numeric column.

The model covers the text shaping and the layout decisions of that file:

- `clean_text`: delete `•` and `*`, then trim whitespace;
- `format_summary`: the summary mapping as display lines;
- `format_insights`: narrative text as clean, non-empty lines;
- the story `create_pdf` hands to the PDF builder;
- the slides `create_ppt` adds to its presentation.

Modules, one per file:

- `Wrappers` (`wrappers.dfy`): `Option`.
- `TextClean` (`text_clean.dfy`): `clean_text`, Python's `str.replace` with an empty replacement, `str.strip`, and `str.isspace`'s whitespace set. `RemoveMarkers` is a reference definition (one pass that drops both markers), against which the `replace` chain is proved.
- `Lines` (`lines.dfy`): `str.split("\n")`. `"\n".join` (`Join`) is not called by the report; it is a reference function, used to state the split round trip and that `format_insights` is idempotent.
- `Decimal` (`decimal.dfy`): how an f-string prints an `int`. `DecimalValue` and `ParseInt` (reading digits back) are reference functions, used only to state the round trip.
- `Paths` (`paths.dfy`): POSIX `os.path.join`. `os.path.basename` is not called by the report; it is a reference function, used only to state that the file name survives the join.
- `Formatters` (`formatters.dfy`): `format_summary` and `format_insights`. Each loop is a method, proved equal to a function that specifies it.
- `PdfReport` (`pdf_report.dfy`): `create_pdf`. The story is a sequence of flowables (styled paragraphs and spacers), built by appending.
- `PptReport` (`ppt_report.dfy`): `create_ppt`. The `Presentation` is a class whose `slides` field grows by `AddSlide`; a slide is its title, its title's point size and its picture. `Pictures` (the images of a run of slides) is a reference function, used to state that every image appears once, in order.

## Model

| member | source | states |
|---|---|---|
| TextClean.IsSpace | auto_report/report.py:59 | the whitespace `str.strip()` removes: the `str.isspace` set, which holds space, tab, line feed and carriage return and neither marker |
| TextClean.CleanText | auto_report/report.py:54-60 | `clean_text(line)` has no `•` and no `*`, no whitespace at either end, and is no longer than `line` |
| TextClean.CleanTextChars | auto_report/report.py:54-60 | every character of `clean_text(line)` occurs in `line` |
| TextClean.RemoveChar | auto_report/report.py:56-57 | `s.replace(c, "")` contains no `c`, is no longer than `s`, and is `s` itself when `s` has no `c` |
| TextClean.RemoveCharChars | auto_report/report.py:56-57 | `s.replace(c, "")` holds exactly the characters of `s` other than `c` |
| TextClean.RemoveDoubleStar | auto_report/report.py:58 | `s.replace("**", "")` is no longer than `s` |
| TextClean.RemoveDoubleStarChars | auto_report/report.py:58 | `s.replace("**", "")` only deletes characters |
| TextClean.LeadingSpace | auto_report/report.py:59 | the leading run `strip` cuts is all whitespace and is followed by non-whitespace |
| TextClean.TrailingSpace | auto_report/report.py:59 | the trailing run `strip` cuts is all whitespace and is preceded by non-whitespace |
| TextClean.Strip | auto_report/report.py:59 | `s.strip()` is a slice of `s` with only whitespace outside it and none at its own ends |
| TextClean.StripCuts | auto_report/report.py:59 | only whitespace lies outside the two cuts `strip` makes, and non-whitespace lies just inside both |
| TextClean.StripWitness | auto_report/report.py:59 | a slice with only whitespace outside it and non-whitespace at its ends is what `strip` yields |
| TextClean.StripChars | auto_report/report.py:59 | `s.strip()` only deletes characters |
| TextClean.LeadingSpaceIs | auto_report/report.py:59 | the leading whitespace length is the unique length with that property |
| TextClean.TrailingSpaceIs | auto_report/report.py:59 | the trailing whitespace length is the unique length with that property |
| TextClean.StripUnique | auto_report/report.py:59 | any slice with only whitespace outside it and none at its ends is `s.strip()` |
| TextClean.StripOfSlice | auto_report/report.py:59 | a slice that starts and ends on non-whitespace, with only whitespace outside it, is `s.strip()` |
| TextClean.StripFixedPoint | auto_report/report.py:59 | `strip` leaves a string without outer whitespace unchanged |
| TextClean.StripKeepsNonSpace | auto_report/report.py:59 | `strip` keeps every non-whitespace character |
| TextClean.DoubleStarReplaceIsNoOp | auto_report/report.py:57-58 | after every `*` is gone, `.replace("**", "")` changes nothing |
| TextClean.RemoveBothIsRemoveMarkers | auto_report/report.py:56-57 | removing `•` then `*` equals one left-to-right pass that drops both markers, so order is kept |
| TextClean.RemoveMarkersAppend | auto_report/report.py:56-57 | marker removal distributes over concatenation |
| TextClean.RemoveMarkersOfPlain | auto_report/report.py:56-57 | text without markers passes marker removal unchanged |
| TextClean.RemoveMarkersKeeps | auto_report/report.py:56-57 | marker removal keeps every character that is not a marker |
| TextClean.CleanTextIsStripOfRemoveMarkers | auto_report/report.py:54-60 | `clean_text(line)` is the line with all markers removed, in order, then stripped |
| TextClean.CleanTextFixedPoint | auto_report/report.py:54-60 | a line without markers and without outer whitespace is returned unchanged |
| TextClean.CleanTextIdempotent | auto_report/report.py:54-60 | `clean_text(clean_text(s)) == clean_text(s)` |
| TextClean.CleanTextOfBlank | auto_report/report.py:54-60 | a line made only of whitespace and markers cleans to `""` |
| TextClean.CleanTextKeepsContent | auto_report/report.py:54-60 | every character that is neither whitespace nor a marker survives `clean_text` |
| TextClean.CleanTextOfBulletItem | auto_report/report.py:54-60 | `"• " + item` cleans to `item` |
| TextClean.RemoveMarkersOfBulletItem | auto_report/report.py:56 | marker removal turns `"• " + item` into `" " + item` |
| TextClean.CleanTextOfBoldLabel | auto_report/report.py:54-60 | `"**" + tag + "**" + rest` cleans to `tag + rest` |
| TextClean.RemoveMarkersOfBoldLabel | auto_report/report.py:57 | marker removal turns `"**" + tag + "**" + rest` into `tag + rest` |
| Lines.Split | auto_report/report.py:85 | `text.split("\n")` has at least one piece, and no piece holds a line break |
| Lines.Join | auto_report/report.py:85 | a reference function (the file never calls `"\n".join`) used to state the inverse of this line's `split`: `"\n".join(pieces)` is `""` for no pieces, starts with the first piece, and has at least one character per separator |
| Lines.JoinSplit | auto_report/report.py:85 | `"\n".join(text.split("\n")) == text` |
| Lines.SplitJoin | auto_report/report.py:85 | splitting the join of pieces without line breaks gives back the pieces |
| Lines.SplitPiecesFromText | auto_report/report.py:85 | every character of every piece occurs in the text |
| Lines.SplitPlainPrefix | auto_report/report.py:85 | a prefix without line breaks glues onto the first piece |
| Lines.SplitCount | auto_report/report.py:85 | the number of pieces is the number of line breaks plus one |
| Decimal.NatToDecimal | auto_report/report.py:74-75 | `str(n)` for `n >= 0` is non-empty digits, with a leading `0` only for `0` and one digit exactly when `n < 10` |
| Decimal.IntToDecimal | auto_report/report.py:74-75 | `str(n)` starts with `-` exactly when `n < 0`, and digits follow |
| Decimal.NatToDecimalRoundTrip | auto_report/report.py:74-75 | reading back `str(n)` gives `n`, for `n >= 0` |
| Decimal.IntToDecimalRoundTrip | auto_report/report.py:74-75 | `int(str(n)) == n` |
| Paths.JoinPath | auto_report/report.py:95 | `os.path.join(a, b)` ends with `b`; it is `b` when `b` is absolute, and otherwise starts with `a` and adds at most one separator |
| Paths.Basename | auto_report/report.py:95 | a reference function (the file never calls `os.path.basename`) that says which file name the joined path ends in: the basename is the suffix after the last separator and holds no separator |
| Paths.BasenameOfJoin | auto_report/report.py:95 | `basename(join(folder, name)) == name` when `name` has no separator |
| Paths.BasenameOfSuffix | auto_report/report.py:95 | after a separator, or at the start, a separator-free suffix is the basename |
| Formatters.Show | auto_report/report.py:74-75 | a value or a missing key renders non-empty, without markers and without trailing whitespace |
| Formatters.MissingLine | auto_report/report.py:79 | `f"{col}: {count}"` starts with the column name and is longer than the name plus `": "` |
| Formatters.MissingEntries | auto_report/report.py:78 | `summary_dict.get("missing_values", {})`: no entries when the key is absent, otherwise the mapping's entries in order |
| Formatters.HeaderLines | auto_report/report.py:73-77 | three non-empty, marker-free lines, the last being `Missing Values:` |
| Formatters.MissingLines | auto_report/report.py:78-79 | one `"{col}: {count}"` line per entry |
| Formatters.SummaryLines | auto_report/report.py:72-80 | the lines `format_summary` returns number `3 + len(missing_values)` |
| Formatters.FormatSummary | auto_report/report.py:72-80 | the loop's result is the header lines followed by one `"{col}: {count}"` line per entry |
| Formatters.SummaryLinesLayout | auto_report/report.py:73-79 | `3 + len(missing_values)` lines: rows, columns, `Missing Values:`, then the entries in order; only the three header lines when `missing_values` is absent |
| Formatters.MissingLineRoundTrip | auto_report/report.py:79 | a missing-value line is the column name, `": "`, and a decimal that reads back as the count |
| Formatters.FormatInsights | auto_report/report.py:83-89 | the loop's result is the cleaned, non-empty pieces of `text.split("\n")`, in order |
| Formatters.InsightLines | auto_report/report.py:83-89 | no returned line is empty, holds a line break or a marker, or has whitespace at its ends |
| Formatters.InsightLinesBound | auto_report/report.py:85-88 | no more lines than pieces, so at most one more than the number of line breaks |
| Formatters.Kept | auto_report/report.py:87-88 | `if line:` keeps the cleaned line exactly when it is non-empty, and then keeps it unchanged |
| Formatters.CleanedLines | auto_report/report.py:85-88 | the loop body keeps at most one line per piece |
| Formatters.CleanedLinesSingle | auto_report/report.py:86-88 | a single piece gives its cleaned form when that is non-empty, and nothing otherwise |
| Formatters.CleanedLinesClean | auto_report/report.py:86-88 | every kept line is non-empty, marker-free and trimmed |
| Formatters.CleanedLinesBound | auto_report/report.py:85-88 | no more lines than pieces |
| Formatters.CleanedLinesNoNewLine | auto_report/report.py:85-88 | pieces without line breaks give lines without them |
| Formatters.CleanedLinesOfBlank | auto_report/report.py:86-88 | pieces that clean to `""` give no lines |
| Formatters.CleanedLinesAppend | auto_report/report.py:85-88 | the lines of `a + b` are the lines of `a` followed by those of `b`, so piece order is kept |
| Formatters.CleanedLinesStep | auto_report/report.py:85-88 | one more piece appends its cleaned form exactly when that is non-empty |
| Formatters.CleanedLinesOfCleanLines | auto_report/report.py:85-88 | already clean, non-empty lines pass through unchanged |
| Formatters.CleanedLinesOfNonBlank | auto_report/report.py:86-88 | one piece with content is enough for a line |
| Formatters.InsightLinesIdempotent | auto_report/report.py:83-89 | `format_insights("\n".join(format_insights(t))) == format_insights(t)` |
| Formatters.InsightLinesOfBlankText | auto_report/report.py:83-89 | text made only of whitespace and markers, `""` included, gives `[]` |
| Formatters.InsightLinesKeepContent | auto_report/report.py:83-89 | text with any character that is neither whitespace nor a marker gives at least one line |
| Formatters.InsightLinesExample | auto_report/report.py:83-89 | `"• Trend: sales up\n**Risk:** churn\n\n"` gives `["Trend: sales up", "Risk: churn"]` |
| Formatters.ExampleSplit | auto_report/report.py:85 | that text splits into its two lines and two empty pieces |
| Formatters.ExampleCleanedPieces | auto_report/report.py:86-88 | those four pieces clean to the two expected lines |
| Formatters.CleanTextOfBulletExample | auto_report/report.py:54-60 | `clean_text("• Trend: sales up") == "Trend: sales up"` |
| Formatters.CleanTextOfBoldExample | auto_report/report.py:54-60 | `clean_text("**Risk:** churn") == "Risk: churn"` |
| Formatters.CleanTextKeepsNumbering | auto_report/report.py:54-60 | numbering such as `"1. Grow"` is kept |
| PdfReport.CreatePdf | auto_report/report.py:94-127 | `filename` defaults to `summary_report.pdf`; returns `os.path.join(folder_path, filename)` and the story of the specification `PdfStory` |
| PdfReport.BuildStory | auto_report/report.py:106-122 | the appends build title, spacer, summary heading, summary paragraphs, spacer, insights heading, insight paragraphs, spacer |
| PdfReport.BodyParagraphs | auto_report/report.py:114-115 | one body paragraph per line |
| PdfReport.Story | auto_report/report.py:106-122 | the story holds `6 + n + m` flowables for `n` summary and `m` insight lines |
| PdfReport.PdfStory | auto_report/report.py:106-122 | the story of a report has `9 + len(missing_values) + len(format_insights(insights))` flowables |
| PdfReport.AppendBodyParagraphs | auto_report/report.py:114-115 | the loop appends one `BodyClean` paragraph of `clean_text(line)` per line, in order |
| PdfReport.BodyParagraphsStep | auto_report/report.py:114-115 | one more line appends exactly its paragraph |
| PdfReport.BodyParagraphsSnoc | auto_report/report.py:114-115 | the paragraphs of `lines + [line]` are those of `lines` followed by the paragraph of `clean_text(line)` |
| PdfReport.StoryLayout | auto_report/report.py:106-122 | `6 + n + m` elements, each at its place, for any summary and insight lines |
| PdfReport.PdfStoryLayout | auto_report/report.py:106-122 | the story: title, spacer (1, 16), `Dataset Summary`, one paragraph per `clean_text(format_summary(...)[k])`, spacer (1, 20), `AI Insights`, one paragraph per `format_insights` line unchanged, spacer (1, 20); `6 + n + m` elements |
| PdfReport.PdfStoryMinimal | auto_report/report.py:106-122 | without `missing_values` and with blank insights the story has 9 elements |
| PdfReport.StoryParagraphsClean | auto_report/report.py:109-121 | no paragraph of the story has a marker or outer whitespace |
| PdfReport.PdfStoryParagraphsClean | auto_report/report.py:106-122 | no paragraph of the report has a marker or outer whitespace |
| PdfReport.HeadingsPlain | auto_report/report.py:109-119 | the title and the two headings have no marker and no outer whitespace |
| PdfReport.SummaryHeadersUnchanged | auto_report/report.py:73-77 | the rows, columns and `Missing Values:` lines pass `clean_text` unchanged |
| PdfReport.MissingHeaderUnchanged | auto_report/report.py:76 | `Missing Values:` passes `clean_text` unchanged |
| PdfReport.LabelledValueUnchanged | auto_report/report.py:74-75 | a capitalised label followed by a rendered value passes `clean_text` unchanged |
| PdfReport.MissingLineUnchanged | auto_report/report.py:78-79 | a missing-value line passes `clean_text` unchanged when its column name has no marker and no leading whitespace |
| PdfReport.DefaultPdfPath | auto_report/report.py:94-95 | with the default name the file is `summary_report.pdf` inside the folder |
| PptReport.Presentation.constructor | auto_report/report.py:133 | a new presentation has no slides |
| PptReport.Presentation.AddSlide | auto_report/report.py:139 | a new slide goes after the existing ones |
| PptReport.CreatePpt | auto_report/report.py:132-166 | `filename` defaults to `graph_report.pptx`; a fresh presentation whose slides are the specification `DeckSlides`, and the path `os.path.join(folder_path, filename)` |
| PptReport.TitleSlide | auto_report/report.py:138-143 | the title slide has no picture and a 48 pt title |
| PptReport.HeatmapSlide | auto_report/report.py:145-153 | the heatmap slide carries the heatmap image and a 36 pt title |
| PptReport.DistributionSlide | auto_report/report.py:156-163 | a distribution slide carries the plot image, and its title is `Distribution: ` followed by the column name |
| PptReport.DistributionSlides | auto_report/report.py:155-163 | one slide per plot (that the slides carry the plot images in order is `PicturesOfDistributionSlides`) |
| PptReport.DeckSlides | auto_report/report.py:138-163 | the deck has `1 + (1 if heatmap else 0) + len(plot_images)` slides and starts with the title slide |
| PptReport.AddDistributionSlides | auto_report/report.py:155-163 | the loop appends the distribution slides after the slides already in the presentation, and changes nothing else |
| PptReport.DistributionSlidesStep | auto_report/report.py:156-163 | one more plot appends exactly its slide |
| PptReport.DeckLayout | auto_report/report.py:138-163 | `1 + (1 if heatmap else 0) + len(plot_images)` slides: the 48 pt title slide, then the 36 pt `Correlation Heatmap` slide only with a heatmap, then one 36 pt `Distribution: {col}` slide with its image per plot, in list order |
| PptReport.PicturesAppend | auto_report/report.py:146-163 | the pictures of two runs of slides are the pictures of each, in order |
| PptReport.PicturesOfDistributionSlides | auto_report/report.py:156-163 | the distribution slides carry the plot images in list order |
| PptReport.DeckPictures | auto_report/report.py:138-163 | the deck's pictures are the heatmap, if given, then every plot image once, in order; the title slide has none |
| PptReport.DefaultPptPath | auto_report/report.py:132-134 | with the default name the file is `graph_report.pptx` inside the folder |

## Left out

- `disable_bullets` (auto_report/report.py:63-66) is not modelled. It edits the slide XML through python-pptx, and nothing in the file calls it.
- Rendering is not modelled: fonts other than the title point sizes, `Inches` geometry of text boxes and pictures, the blank slide layout, the page size, and the `BodyClean` style's font size, leading and alignment. What remains is the ordering and counting of flowables and slides.
- File output is not modelled. `pdf.build(story)` and `prs.save(ppt_path)` become returning the story or the presentation with the path.
- `os.path.join` is modelled for POSIX separators only.
- Images are opaque byte strings. The model does not state what a picture shows.
- `create_ppt`'s `if heatmap:` is modelled as `Option<Image>`. The heatmap comes from `generate_corr_heatmap` (auto_report/processor.py:49-60), which returns `None` or a `BytesIO`; a `BytesIO` defines neither `__bool__` nor `__len__`, so it is always truthy. Other falsy values are not modelled.
- `summary_dict` is modelled with `rows` and `columns` as optional integers (absent renders `None`) and `missing_values` as an optional ordered list of (column, count) pairs. Column labels are strings; other key types are not modelled.
- `auto_report/ingest.py`, `auto_report/processor.py`, `auto_report/insights.py` and `auto_report/app.py` are not part of this model. They are pandas and matplotlib wrappers, a remote model call, and the Streamlit interface.
- `auto_report/app.py` calls `create_ppt` and `create_pdf` with six arguments, which does not match their signatures in report.py. The model follows report.py.
- CreatePdf / DistributionSlide: paragraph and slide text is modelled as plain text. reportlab's `Paragraph` parses its text as its own markup (tags such as `<b>` and `<br/>`, entities such as `&lt;`), so such text is interpreted rather than printed. Text its parser rejects makes the constructor raise `ValueError` inside the loops at auto_report/report.py:114-115 and 120-121, and then `create_pdf` returns no path. That error path is not modelled: `CreatePdf` always returns a story and the path. Likewise python-pptx's `text_frame.text = ...` starts a new paragraph at each `"\n"`, and `paragraphs[0].font.size = Pt(36)` (auto_report/report.py:160-161) sizes only the first of them. So `titlePt == 36` describes only the first line of a column name that holds a line break.
- The body of `create_pdf` is split into three methods: the path and formatting calls, the story assembly, and the per-line paragraph loop. This split is a modelling choice and does not change the order of appends. Likewise the `for col, img in plot_images` loop of `create_ppt` is its own method, `AddDistributionSlides`, acting on the same presentation.
- Text is a sequence of Unicode scalar values (Dafny's `char`). A Python `str` may also hold lone surrogates (for example after `surrogateescape` decoding); such strings have no counterpart in the model. `str.isspace` is modelled by its fixed whitespace set: U+0009–000D, U+001C–001F, U+0020, U+0085, U+00A0, U+1680, U+2000–200A, U+2028, U+2029, U+202F, U+205F, U+3000.
