/** The fixed lines of the Markdown report: headings, the table head and the
    row standing in for an empty report. */
module MarkdownText {
  function Title(): string { "# Repo Sanity Report" }
  function FindingsHeading(): string { "## Findings" }
  function ColumnTitles(): string { "| Severity | Rule | Title | Summary | Files |" }
  function AlignmentRow(): string { "| --- | --- | --- | --- | --- |" }
  function EmptyRow(): string { "| OK | - | No findings | No issues detected | - |" }

  /** None of the fixed lines spans lines. */
  lemma FixedLinesAreSingleLines()
    ensures '\n' !in Title() && '\n' !in FindingsHeading() && '\n' !in AlignmentRow()
    ensures '\n' !in ColumnTitles() && '\n' !in EmptyRow()
  {
    ColumnTitlesAreSingleLine();
    EmptyRowIsSingleLine();
  }

  lemma EmptyRowIsSingleLine()
    ensures '\n' !in EmptyRow()
  {
    EmptyRowPieces();
    assert '\n' !in "| OK | - | No findings" + " | No issues detected | - |";
  }

  lemma EmptyRowPieces()
    ensures EmptyRow() == "| OK | - | No findings" + " | No issues detected | - |"
  {
  }

  lemma ColumnTitlesAreSingleLine()
    ensures '\n' !in ColumnTitles()
  {
    ColumnTitlesPieces();
    assert '\n' !in "| Severity | Rule | Title" + " | Summary | Files |";
  }

  lemma ColumnTitlesPieces()
    ensures ColumnTitles() == "| Severity | Rule | Title" + " | Summary | Files |"
  {
  }
}

/** The Markdown report renderer: a fixed header, one table row per finding
    (or an explicit "No findings" row), and a trailing empty line, joined with
    newlines. */
module Markdown {
  import opened Wrappers
  import opened Types
  import Strings
  import opened MarkdownText

  /** The severity label shown in the first table column. */
  function Badge(s: Severity): string {
    match s
    case Fatal => "FATAL"
    case Error => "ERROR"
    case Warning => "WARNING"
    case Info => "INFO"
    case Ok => "OK"
  }

  /** Every severity has its own label, none of which spans lines. */
  lemma BadgeInjective(a: Severity, b: Severity)
    ensures Badge(a) == Badge(b) ==> a == b
    ensures '\n' !in Badge(a)
  {
  }

  /** The Files column: "-" for a finding without files, otherwise the files
      joined by ", ". A single file literally named "-" is indistinguishable
      from no files. */
  function RenderFiles(files: Option<seq<string>>): (r: string)
    ensures files.None? || |files.value| == 0 ==> r == "-"
    ensures files.Some? && |files.value| > 0 ==> r == Strings.Join(files.value, ", ")
    ensures r == "-" <==> files.None? || files.value == [] || files.value == ["-"]
  {
    if files.None? || |files.value| == 0 then "-"
    else
      JoinedLength(files.value, ", ");
      Strings.Join(files.value, ", ")
  }

  /** Joining two or more pieces with a two-character separator gives at least two characters. */
  lemma JoinedLength(xs: seq<string>, sep: string)
    requires |xs| >= 1 && |sep| == 2
    ensures |xs| >= 2 ==> |Strings.Join(xs, sep)| >= 2
    ensures |xs| == 1 ==> Strings.Join(xs, sep) == xs[0]
  {
  }

  /** The table row of one finding: badge, rule, title, summary and files. */
  function Row(f: Finding): string {
    "| " + Badge(f.severity) + " | " + f.ruleId + " | " + f.title + " | " + f.summary + " | " +
    RenderFiles(f.files) + " |"
  }

  /** The eleven lines before the table body: title, target, timestamp,
      score, finding count, section heading and the table head. */
  function Header(report: Report): (h: seq<string>)
    ensures |h| == 11
  {
    HeaderLines(report.targetPath, report.generatedAt, Strings.IntToDecimal(report.score),
                Strings.IntToDecimal(|report.findings|))
  }

  function HeaderLines(target: string, generatedAt: string, score: string, count: string): (h: seq<string>)
    ensures |h| == 11
  {
    [Title(), ""]
    + MetaLines(target, generatedAt, score, count)
    + ["", FindingsHeading(), ""]
    + TableHead()
  }

  /** The bullet list naming the target, timestamp, score and finding count. */
  function MetaLines(target: string, generatedAt: string, score: string, count: string): (m: seq<string>)
    ensures |m| == 4
  {
    [ "- Target: `" + target + "`",
      "- Generated at: `" + generatedAt + "`",
      "- Score: **" + score + "/100**",
      "- Findings: **" + count + "**" ]
  }

  /** The table's column titles and the alignment row under them. */
  function TableHead(): (t: seq<string>)
    ensures |t| == 2
  {
    [ColumnTitles(), AlignmentRow()]
  }

  /** The table body: one row per finding in report order, or the explicit
      empty-report row. */
  function Body(findings: seq<Finding>): (rows: seq<string>)
    ensures |rows| == if |findings| == 0 then 1 else |findings|
    ensures |findings| == 0 ==> rows == [EmptyRow()]
    ensures forall i :: 0 <= i < |findings| ==> rows[i] == Row(findings[i])
  {
    if |findings| == 0 then [EmptyRow()]
    else seq(|findings|, i requires 0 <= i < |findings| => Row(findings[i]))
  }

  /** The lines of the document, before they are joined. */
  function Lines(report: Report): (lines: seq<string>)
    ensures |lines| == 11 + (if |report.findings| == 0 then 1 else |report.findings|) + 1
    ensures lines[..11] == Header(report)
    ensures lines[11..|lines| - 1] == Body(report.findings)
    ensures lines[|lines| - 1] == ""
  {
    Header(report) + Body(report.findings) + [""]
  }

  /** The header reads, line by line: the title, a blank line, the target and
      timestamp in backticks, the score and count lines, a blank line, the
      Findings heading, a blank line, and the table's column titles and
      alignment row. */
  lemma HeaderText(target: string, generatedAt: string, score: string, count: string)
    ensures var h := HeaderLines(target, generatedAt, score, count);
      && h[0] == "# Repo Sanity Report" && h[1] == ""
      && h[2] == "- Target: `" + target + "`"
      && h[3] == "- Generated at: `" + generatedAt + "`"
      && h[4] == "- Score: **" + score + "/100**"
      && h[5] == "- Findings: **" + count + "**"
      && h[6] == "" && h[7] == "## Findings" && h[8] == ""
      && h[9] == "| Severity | Rule | Title | Summary | Files |"
      && h[10] == "| --- | --- | --- | --- | --- |"
  {
  }

  /** The document's lines as text: the header of HeaderText for the report's
      target and timestamp, then one row per finding in report order (badge,
      rule, title, summary, files) or the "No findings" row, then an empty
      last line. */
  lemma DocumentLines(report: Report)
    ensures var lines := Lines(report);
      && lines[0] == "# Repo Sanity Report" && lines[1] == ""
      && lines[2] == "- Target: `" + report.targetPath + "`"
      && lines[3] == "- Generated at: `" + report.generatedAt + "`"
      && lines[6] == "" && lines[7] == "## Findings" && lines[8] == ""
      && lines[9] == "| Severity | Rule | Title | Summary | Files |"
      && lines[10] == "| --- | --- | --- | --- | --- |"
      && (|report.findings| == 0 ==>
            |lines| == 13 && lines[11] == "| OK | - | No findings | No issues detected | - |")
      && (|report.findings| > 0 ==> |lines| == 12 + |report.findings|)
      && (forall i :: 0 <= i < |report.findings| ==>
            lines[11 + i] == "| " + Badge(report.findings[i].severity) + " | " + report.findings[i].ruleId +
                             " | " + report.findings[i].title + " | " + report.findings[i].summary + " | " +
                             RenderFiles(report.findings[i].files) + " |")
      && lines[|lines| - 1] == ""
  {
    var lines := Lines(report);
    HeaderText(report.targetPath, report.generatedAt, Strings.IntToDecimal(report.score),
               Strings.IntToDecimal(|report.findings|));
    assert lines[..11] == Header(report);
    forall i | 0 <= i < 11
      ensures lines[i] == Header(report)[i]
    {
      assert lines[i] == lines[..11][i];
    }
    var body := Body(report.findings);
    assert lines[11..|lines| - 1] == body;
    forall i | 0 <= i < |body|
      ensures lines[11 + i] == body[i]
    {
      assert lines[11 + i] == lines[11..|lines| - 1][i];
    }
  }

  /** The rendered document. */
  function RenderMarkdownReport(report: Report): (text: string)
    ensures |text| > 0 && text[|text| - 1] == '\n'
  {
    var lines := Lines(report);
    Strings.JoinSnoc(lines, "\n");
    Strings.Join(lines, "\n")
  }

  /** No text the report contributes to the document spans lines. */
  predicate SingleLine(report: Report) {
    && '\n' !in report.targetPath
    && '\n' !in report.generatedAt
    && forall i :: 0 <= i < |report.findings| ==> SingleLineFinding(report.findings[i])
  }

  predicate SingleLineFinding(f: Finding) {
    && '\n' !in f.ruleId
    && '\n' !in f.title
    && '\n' !in f.summary
    && (f.files.Some? ==> forall j :: 0 <= j < |f.files.value| ==> '\n' !in f.files.value[j])
  }

  lemma RowIsSingleLine(f: Finding)
    requires SingleLineFinding(f)
    ensures '\n' !in Row(f)
  {
    BadgeInjective(f.severity, f.severity);
    if f.files.Some? && |f.files.value| > 0 {
      Strings.JoinAvoids(f.files.value, ", ", '\n');
    }
  }

  lemma ConcatIsSingleLine(a: string, b: string, c: string)
    requires '\n' !in a && '\n' !in b && '\n' !in c
    ensures '\n' !in a + b + c
  {
  }

  lemma HeaderIsSingleLine(report: Report)
    requires '\n' !in report.targetPath && '\n' !in report.generatedAt
    ensures AllSingleLine(Header(report))
  {
    HeaderLinesAreSingleLines(report.targetPath, report.generatedAt, Strings.IntToDecimal(report.score),
                              Strings.IntToDecimal(|report.findings|));
  }

  /** Every line of `lines` is free of newlines. */
  predicate AllSingleLine(lines: seq<string>) {
    forall i :: 0 <= i < |lines| ==> '\n' !in lines[i]
  }

  lemma AllSingleLineConcat(a: seq<string>, b: seq<string>)
    requires AllSingleLine(a) && AllSingleLine(b)
    ensures AllSingleLine(a + b)
  {
    forall i | 0 <= i < |a + b|
      ensures '\n' !in (a + b)[i]
    {
      if i >= |a| {
        assert (a + b)[i] == b[i - |a|];
      }
    }
  }

  lemma MetaLinesAreSingleLines(target: string, generatedAt: string, score: string, count: string)
    requires '\n' !in target && '\n' !in generatedAt && '\n' !in score && '\n' !in count
    ensures AllSingleLine(MetaLines(target, generatedAt, score, count))
  {
    ConcatIsSingleLine("- Target: `", target, "`");
    ConcatIsSingleLine("- Generated at: `", generatedAt, "`");
    ConcatIsSingleLine("- Score: **", score, "/100**");
    ConcatIsSingleLine("- Findings: **", count, "**");
  }

  lemma TableHeadIsSingleLine()
    ensures AllSingleLine(TableHead())
  {
    FixedLinesAreSingleLines();
  }

  lemma HeaderLinesAreSingleLines(target: string, generatedAt: string, score: string, count: string)
    requires '\n' !in target && '\n' !in generatedAt && '\n' !in score && '\n' !in count
    ensures AllSingleLine(HeaderLines(target, generatedAt, score, count))
  {
    var title := [Title(), ""];
    var meta := MetaLines(target, generatedAt, score, count);
    var section := ["", FindingsHeading(), ""];
    FixedLinesAreSingleLines();
    MetaLinesAreSingleLines(target, generatedAt, score, count);
    TableHeadIsSingleLine();
    AllSingleLineConcat(title, meta);
    AllSingleLineConcat(title + meta, section);
    AllSingleLineConcat(title + meta + section, TableHead());
  }

  /** Splitting the document at newlines gives back exactly its lines: the
      eleven header lines, one row per finding (or the empty-report row) and
      a final empty line, provided no field of the report spans lines. */
  lemma RenderSplitsIntoLines(report: Report)
    requires SingleLine(report)
    ensures Strings.Split(RenderMarkdownReport(report), '\n') == Lines(report)
  {
    var header := Header(report);
    var body := Body(report.findings);
    HeaderIsSingleLine(report);
    if |report.findings| == 0 {
      FixedLinesAreSingleLines();
      assert body == [EmptyRow()];
    } else {
      forall i | 0 <= i < |body|
        ensures '\n' !in body[i]
      {
        RowIsSingleLine(report.findings[i]);
      }
    }
    AllSingleLineConcat(header, body);
    AllSingleLineConcat(header + body, [""]);
    assert Lines(report) == header + body + [""];
    Strings.SplitJoin(Lines(report), '\n');
  }

  /** The Score and Findings lines show the report's score and its number of
      findings as canonical decimal numerals (digits only, no leading zero)
      that read back as those numbers; by Strings.NumeralCanonical such a
      numeral is unique. */
  lemma ScoreAndCountShown(report: Report)
    requires report.score >= 0
    ensures exists digits :: Lines(report)[4] == "- Score: **" + digits + "/100**" &&
                             Strings.Numeral(digits) && Strings.ParseDecimal(digits) == report.score
    ensures exists digits :: Lines(report)[5] == "- Findings: **" + digits + "**" &&
                             Strings.Numeral(digits) && Strings.ParseDecimal(digits) == |report.findings|
  {
    var score := Strings.IntToDecimal(report.score);
    var count := Strings.IntToDecimal(|report.findings|);
    Strings.IntToDecimalRoundTrip(report.score);
    Strings.IntToDecimalRoundTrip(|report.findings|);
    HeaderText(report.targetPath, report.generatedAt, score, count);
    var lines := Lines(report);
    assert lines[4] == lines[..11][4] && lines[5] == lines[..11][5];
  }
}
