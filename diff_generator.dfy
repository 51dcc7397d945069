/** The diff report generator (diff_generator/generator.py). The line
    splitting, the unified diff and the HTML side-by-side table come from
    Python's `str.splitlines` and `difflib`; they are inputs here. */
module DiffGenerator {
  import opened Wrappers
  import Text

  /** The library calls the generator makes. */
  datatype DiffLibrary = DiffLibrary(
    splitLines: string -> seq<string>,
    unifiedDiff: (seq<string>, seq<string>) -> seq<string>,
    htmlDiff: (seq<string>, seq<string>) -> string)

  datatype DiffError = UnsupportedFormat(format: string)

  const MarkdownFormat: string := "markdown"
  const HtmlFormat: string := "html"
  const NoDifferencesMessage: string := "差分は見つかりませんでした。内容は完全に一致しています。"
  const FenceOpen: string := "```diff\n"
  const FenceClose: string := "```"
  /** `unified_diff` opens with the `---` and `+++` file header lines. */
  const HeaderLines: nat := 2

  /** A unified-diff line that records an added or deleted line. */
  predicate Signed(line: string)
  {
    |line| > 0 && (line[0] == '+' || line[0] == '-')
  }

  /** A formatted line that reports a change: it starts with `"+ "` or `"- "`. */
  predicate ChangeLine(line: string)
  {
    Text.StartsWith(line, "+ ") || Text.StartsWith(line, "- ")
  }

  /** A space goes after the sign of an added or deleted line; every other
      line is kept as it is. */
  function FormatLine(line: string): (f: string)
    ensures Signed(line) ==> |f| == |line| + 1 && f[0] == line[0] && f[1] == ' ' && f[2..] == line[1..]
    ensures !Signed(line) ==> f == line
  {
    if Signed(line) then [line[0]] + " " + line[1..] else line
  }

  /** Dropping the inserted space gives the diff line back. */
  lemma FormatLineInverse(line: string)
    ensures Signed(line) ==> FormatLine(line)[..1] + FormatLine(line)[2..] == line
  {
  }

  /** A formatted line reports a change exactly when its diff line was signed. */
  lemma FormatLineChange(line: string)
    ensures ChangeLine(FormatLine(line)) <==> Signed(line)
  {
    var f := FormatLine(line);
    if Signed(line) {
      assert f[..2] == [line[0]] + " ";
    }
  }

  /** The formatted lines: the header lines skipped, the rest formatted in order. */
  function FormattedLines(diffLines: seq<string>): (fs: seq<string>)
    ensures |fs| == if |diffLines| <= HeaderLines then 0 else |diffLines| - HeaderLines
    ensures forall k :: 0 <= k < |fs| ==> fs[k] == FormatLine(diffLines[k + HeaderLines])
  {
    if |diffLines| <= HeaderLines then []
    else seq(|diffLines| - HeaderLines, k requires 0 <= k < |diffLines| - HeaderLines => FormatLine(diffLines[k + HeaderLines]))
  }

  /** One more diff line adds one formatted line once the headers are past. */
  lemma FormattedLinesSnoc(diffLines: seq<string>, i: nat)
    requires i < |diffLines|
    ensures FormattedLines(diffLines[..i + 1])
         == FormattedLines(diffLines[..i]) + (if i < HeaderLines then [] else [FormatLine(diffLines[i])])
  {
    var a := FormattedLines(diffLines[..i]);
    var b := FormattedLines(diffLines[..i + 1]);
    if i >= HeaderLines {
      assert |b| == |a| + 1;
      forall k | 0 <= k < |b|
        ensures b[k] == (a + [FormatLine(diffLines[i])])[k]
      {
        assert diffLines[..i + 1][k + HeaderLines] == diffLines[k + HeaderLines];
      }
    }
  }

  /** Each line followed by a newline. */
  function Lines(ls: seq<string>): string
  {
    if ls == [] then "" else Lines(ls[..|ls| - 1]) + ls[|ls| - 1] + "\n"
  }

  lemma LinesSnoc(ls: seq<string>, line: string)
    ensures Lines(ls + [line]) == Lines(ls) + line + "\n"
  {
    assert (ls + [line])[..|ls|] == ls;
  }

  /** One iteration of the report loop past the headers: the formatted line
      joins the list and the report. */
  lemma ReportStep(diffLines: seq<string>, i: nat, formatted: seq<string>, line: string)
    requires HeaderLines <= i < |diffLines|
    requires formatted == FormattedLines(diffLines[..i])
    requires line == FormatLine(diffLines[i])
    ensures formatted + [line] == FormattedLines(diffLines[..i + 1])
    ensures FenceOpen + Lines(formatted) + line + "\n" == FenceOpen + Lines(formatted + [line])
  {
    FormattedLinesSnoc(diffLines, i);
    var body := Lines(formatted);
    LinesSnoc(formatted, line);
    AppendLine(FenceOpen, body, line);
  }

  lemma AppendLine(prefix: string, body: string, line: string)
    ensures prefix + body + line + "\n" == prefix + (body + line + "\n")
  {
  }

  /** `line.startswith('+') or line.startswith('-')` tests the sign. */
  lemma StartsWithSign(line: string)
    ensures (Text.StartsWith(line, "+") || Text.StartsWith(line, "-")) <==> Signed(line)
  {
    if |line| > 0 {
      assert line[..1] == [line[0]];
    }
  }

  /** `any(...)` over the formatted lines. */
  predicate HasChanges(formatted: seq<string>)
  {
    exists k :: 0 <= k < |formatted| && ChangeLine(formatted[k])
  }

  /** What `generate_markdown_diff` returns for a unified diff. */
  function MarkdownReport(diffLines: seq<string>): (report: string)
    ensures report == NoDifferencesMessage || Text.StartsWith(report, FenceOpen)
  {
    var formatted := FormattedLines(diffLines);
    if HasChanges(formatted) then FenceOpen + Lines(formatted) + FenceClose else NoDifferencesMessage
  }

  /** The "no differences" sentence is returned exactly when no line after
      the headers is an added or deleted line; otherwise the report is the
      fenced block of the formatted lines. */
  lemma NoDifferencesIff(diffLines: seq<string>)
    ensures MarkdownReport(diffLines) == NoDifferencesMessage
        <==> forall i :: HeaderLines <= i < |diffLines| ==> !Signed(diffLines[i])
    ensures MarkdownReport(diffLines) != NoDifferencesMessage ==>
      MarkdownReport(diffLines) == FenceOpen + Lines(FormattedLines(diffLines)) + FenceClose
  {
    var formatted := FormattedLines(diffLines);
    if HasChanges(formatted) {
      var k :| 0 <= k < |formatted| && ChangeLine(formatted[k]);
      FormatLineChange(diffLines[k + HeaderLines]);
      var report := FenceOpen + Lines(formatted) + FenceClose;
      assert report[0] == '`' != NoDifferencesMessage[0];
    } else {
      forall i | HeaderLines <= i < |diffLines|
        ensures !Signed(diffLines[i])
      {
        FormatLineChange(diffLines[i]);
        assert formatted[i - HeaderLines] == FormatLine(diffLines[i]);
      }
    }
  }

  /** The two header lines do not influence the report. */
  lemma HeadersIgnored(d: seq<string>, e: seq<string>)
    requires |d| >= HeaderLines && |e| >= HeaderLines && d[HeaderLines..] == e[HeaderLines..]
    ensures MarkdownReport(d) == MarkdownReport(e)
  {
    var fd := FormattedLines(d);
    var fe := FormattedLines(e);
    forall k | 0 <= k < |fd|
      ensures fd[k] == fe[k]
    {
      assert d[k + HeaderLines] == d[HeaderLines..][k];
      assert e[k + HeaderLines] == e[HeaderLines..][k];
    }
    assert fd == fe;
  }

  /** `generate_markdown_diff`: one pass over the diff lines, building the
      report and the list of formatted lines, then the `any` scan. */
  method GenerateMarkdownDiff(oldLines: seq<string>, newLines: seq<string>, lib: DiffLibrary)
    returns (report: string)
    ensures report == MarkdownReport(lib.unifiedDiff(oldLines, newLines))
  {
    var diffLines := lib.unifiedDiff(oldLines, newLines);
    var markdownReport := FenceOpen;
    var formattedLines: seq<string> := [];
    for i := 0 to |diffLines|
      invariant formattedLines == FormattedLines(diffLines[..i])
      invariant markdownReport == FenceOpen + Lines(formattedLines)
    {
      if i > 1 {
        var line := diffLines[i];
        StartsWithSign(line);
        if Text.StartsWith(line, "+") || Text.StartsWith(line, "-") {
          line := [line[0]] + " " + line[1..];
        }
        ReportStep(diffLines, i, formattedLines, line);
        formattedLines := formattedLines + [line];
        markdownReport := markdownReport + line + "\n";
      } else {
        FormattedLinesSnoc(diffLines, i);
      }
    }
    assert diffLines[..|diffLines|] == diffLines;
    markdownReport := markdownReport + FenceClose;
    var hasChanges := HasChanges(formattedLines);
    if !hasChanges {
      return NoDifferencesMessage;
    }
    return markdownReport;
  }

  /** `generate_diff_report`: the format guard, then the markdown or the
      HTML report of the two texts' lines. */
  method GenerateDiffReport(oldText: string, newText: string, format: string, lib: DiffLibrary)
    returns (r: Result<string, DiffError>)
    ensures r.Failure? <==> format != MarkdownFormat && format != HtmlFormat
    ensures r.Failure? ==> r.error == UnsupportedFormat(format)
    ensures format == MarkdownFormat ==>
      r == Success(MarkdownReport(lib.unifiedDiff(lib.splitLines(oldText), lib.splitLines(newText))))
    ensures format == HtmlFormat ==>
      r == Success(lib.htmlDiff(lib.splitLines(oldText), lib.splitLines(newText)))
  {
    if format != MarkdownFormat && format != HtmlFormat {
      return Failure(UnsupportedFormat(format));
    }
    var oldLines := lib.splitLines(oldText);
    var newLines := lib.splitLines(newText);
    if format == MarkdownFormat {
      var report := GenerateMarkdownDiff(oldLines, newLines, lib);
      return Success(report);
    }
    return Success(lib.htmlDiff(oldLines, newLines));
  }

  /** Identical texts: `difflib` yields no lines for equal inputs, so the
      markdown report is the "no differences" sentence. */
  lemma IdenticalTexts(text: string, lib: DiffLibrary)
    requires lib.unifiedDiff(lib.splitLines(text), lib.splitLines(text)) == []
    ensures MarkdownReport(lib.unifiedDiff(lib.splitLines(text), lib.splitLines(text))) == NoDifferencesMessage
  {
    NoDifferencesIff([]);
  }

  /** A diff confined to the headers and unchanged context lines reports no
      differences, whatever the headers say. */
  lemma ContextOnlyDiff(header1: string, header2: string, context: seq<string>)
    requires forall i :: 0 <= i < |context| ==> |context[i]| > 0 && context[i][0] == ' '
    ensures MarkdownReport([header1, header2] + context) == NoDifferencesMessage
  {
    var d := [header1, header2] + context;
    forall i | HeaderLines <= i < |d|
      ensures !Signed(d[i])
    {
      assert d[i] == context[i - HeaderLines];
    }
    NoDifferencesIff(d);
  }
}
