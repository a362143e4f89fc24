/** The decision logic of the command-line entry point: severity ranking, the
    highest severity of a report, the `--fail-on` exit decision, validation of
    the `--format` and `--fail-on` arguments, and the choice of scan target. */
module Cli {
  import opened Wrappers
  import opened Types
  import Strings

  /** Accepted `--format` values, in the order the error message lists them. */
  const OUTPUT_FORMATS: seq<OutputFormat> := [Terminal, Markdown, JsonFormat]

  /** Accepted `--fail-on` values; `ok` is deliberately not among them. */
  const FAIL_SEVERITIES: seq<Severity> := [Info, Warning, Error, Fatal]

  function SeverityRank(s: Severity): nat {
    match s
    case Ok => 0
    case Info => 1
    case Warning => 2
    case Error => 3
    case Fatal => 4
  }

  /** The rank follows the declared order ok < info < warning < error < fatal,
      so it is injective, with `ok` the unique minimum and `fatal` the unique maximum. */
  lemma RankOrder(a: Severity, b: Severity)
    ensures SeverityRank(Ok) < SeverityRank(Info) < SeverityRank(Warning)
            < SeverityRank(Error) < SeverityRank(Fatal)
    ensures SeverityRank(a) == SeverityRank(b) ==> a == b
    ensures SeverityRank(a) == 0 <==> a == Ok
    ensures SeverityRank(a) == 4 <==> a == Fatal
    ensures 0 <= SeverityRank(a) <= 4
  {
  }

  /** The reducer of `highestSeverity`: keep the accumulator unless the next
      finding ranks strictly higher. */
  function MaxStep(highest: Severity, f: Finding): Severity {
    if SeverityRank(f.severity) > SeverityRank(highest) then f.severity else highest
  }

  /** Left fold of `MaxStep` over `fs` starting from `acc`. */
  function FoldHighest(acc: Severity, fs: seq<Finding>): (r: Severity)
    ensures SeverityRank(r) >= SeverityRank(acc)
    ensures forall i :: 0 <= i < |fs| ==> SeverityRank(r) >= SeverityRank(fs[i].severity)
    ensures r == acc || exists i :: 0 <= i < |fs| && r == fs[i].severity
    decreases |fs|
  {
    if |fs| == 0 then acc
    else
      var r := FoldHighest(MaxStep(acc, fs[0]), fs[1..]);
      assert forall i :: 1 <= i < |fs| ==> fs[i] == fs[1..][i - 1];
      r
  }

  /** The most severe severity among a report's findings, `ok` when there are none. */
  function HighestSeverity(report: Report): (r: Severity)
    ensures |report.findings| == 0 ==> r == Ok
    ensures forall i :: 0 <= i < |report.findings| ==>
              SeverityRank(r) >= SeverityRank(report.findings[i].severity)
    ensures r == Ok || exists i :: 0 <= i < |report.findings| && r == report.findings[i].severity
  {
    FoldHighest(Ok, report.findings)
  }

  /** Adding findings to a report never lowers its highest severity. */
  lemma {:induction false} AppendNeverLowers(report: Report, more: seq<Finding>)
    ensures SeverityRank(HighestSeverity(report.(findings := report.findings + more)))
            >= SeverityRank(HighestSeverity(report))
  {
    var bigger := report.(findings := report.findings + more);
    var h := HighestSeverity(report);
    if h != Ok {
      var i :| 0 <= i < |report.findings| && h == report.findings[i].severity;
      assert bigger.findings[i] == report.findings[i];
    }
  }

  /** Some finding of the report reaches the given rank. */
  predicate Reaches(report: Report, threshold: Severity) {
    exists i :: 0 <= i < |report.findings| &&
      SeverityRank(report.findings[i].severity) >= SeverityRank(threshold)
  }

  /** The exit code `runScan` assigns after rendering: `Some(1)` when a
      threshold is configured and the highest severity reaches it, `None`
      when the exit code is left untouched. */
  function FailOnExitCode(report: Report, failOn: Option<Severity>): (code: Option<int>)
    ensures failOn.None? ==> code == None
    ensures code == None || code == Some(1)
    ensures failOn.Some? && failOn.value != Ok ==> (code == Some(1) <==> Reaches(report, failOn.value))
    ensures failOn == Some(Ok) ==> code == Some(1)
  {
    if failOn.Some? && SeverityRank(HighestSeverity(report)) >= SeverityRank(failOn.value) then
      Some(1)
    else
      None
  }

  /** A report whose findings are all `ok` (or that has none) never fails the
      run, whatever threshold the command line accepted. */
  lemma OnlyOkNeverFails(report: Report, value: string)
    requires forall i :: 0 <= i < |report.findings| ==> report.findings[i].severity == Ok
    requires ParseFailSeverity(value).Success?
    ensures FailOnExitCode(report, Some(ParseFailSeverity(value).value)) == None
  {
  }

  /** The first candidate whose name is `value`, if any. */
  function FindByName<T>(value: string, candidates: seq<T>, name: T -> string): (r: Option<T>)
    ensures r.Some? ==> name(r.value) == value && r.value in candidates
    ensures r.None? <==> forall i :: 0 <= i < |candidates| ==> name(candidates[i]) != value
    decreases |candidates|
  {
    if |candidates| == 0 then None
    else if name(candidates[0]) == value then Some(candidates[0])
    else
      var r := FindByName(value, candidates[1..], name);
      assert forall i :: 1 <= i < |candidates| ==> candidates[i] == candidates[1..][i - 1];
      r
  }

  function FormatNames(): seq<string> {
    seq(|OUTPUT_FORMATS|, i requires 0 <= i < |OUTPUT_FORMATS| => FormatName(OUTPUT_FORMATS[i]))
  }

  function FailSeverityNames(): seq<string> {
    seq(|FAIL_SEVERITIES|, i requires 0 <= i < |FAIL_SEVERITIES| => SeverityName(FAIL_SEVERITIES[i]))
  }

  /** The format choices, in the order the error message lists them. */
  lemma FormatChoices()
    ensures FormatNames() == ["terminal", "markdown", "json"]
    ensures Strings.Join(FormatNames(), ", ") == "terminal, markdown, json"
  {
  }

  /** The threshold choices, in the order the error message lists them. */
  lemma FailSeverityChoices()
    ensures FailSeverityNames() == ["info", "warning", "error", "fatal"]
    ensures Strings.Join(FailSeverityNames(), ", ") == "info, warning, error, fatal"
  {
  }

  /** The format lookup finds a format exactly for the three spellings. */
  lemma FormatLookup(value: string)
    ensures FindByName(value, OUTPUT_FORMATS, FormatName).Some? <==> value in {"terminal", "markdown", "json"}
  {
    var names := FormatNames();
    FormatChoices();
    assert forall i :: 0 <= i < |OUTPUT_FORMATS| ==> FormatName(OUTPUT_FORMATS[i]) == names[i];
  }

  /** The threshold lookup finds a severity exactly for the four spellings. */
  lemma FailSeverityLookup(value: string)
    ensures FindByName(value, FAIL_SEVERITIES, SeverityName).Some? <==> value in {"info", "warning", "error", "fatal"}
  {
    var names := FailSeverityNames();
    FailSeverityChoices();
    assert forall i :: 0 <= i < |FAIL_SEVERITIES| ==> SeverityName(FAIL_SEVERITIES[i]) == names[i];
  }

  /** Validates a `--format` argument: accepted exactly when it spells one of
      the three formats, and then that format is returned; otherwise fails with
      a message quoting the value and listing the choices. */
  function ParseOutputFormat(value: string): (r: Result<OutputFormat, string>)
    ensures r.Success? <==> value in {"terminal", "markdown", "json"}
    ensures r.Success? ==> FormatName(r.value) == value
    ensures r.Failure? ==>
              r.error == "Invalid format \"" + value + "\". Use: " + "terminal, markdown, json"
  {
    FormatChoices();
    FormatLookup(value);
    match FindByName(value, OUTPUT_FORMATS, FormatName)
    case Some(f) => Success(f)
    case None =>
      Failure("Invalid format \"" + value + "\". Use: " + Strings.Join(FormatNames(), ", "))
  }

  /** Validates a `--fail-on` argument: accepted exactly when it spells info,
      warning, error or fatal, and then that severity is returned; `ok` fails. */
  function ParseFailSeverity(value: string): (r: Result<Severity, string>)
    ensures r.Success? <==> value in {"info", "warning", "error", "fatal"}
    ensures r.Success? ==> SeverityName(r.value) == value && r.value != Ok
    ensures r.Failure? ==>
              r.error == "Invalid --fail-on severity \"" + value + "\". Use: " + "info, warning, error, fatal"
  {
    FailSeverityChoices();
    FailSeverityLookup(value);
    match FindByName(value, FAIL_SEVERITIES, SeverityName)
    case Some(s) => Success(s)
    case None =>
      Failure("Invalid --fail-on severity \"" + value + "\". Use: "
              + Strings.Join(FailSeverityNames(), ", "))
  }

  /** The options a scan runs with once the arguments have been validated. */
  datatype ScanOptions = ScanOptions(format: OutputFormat, output: Option<string>, failOn: Option<Severity>)

  /** A validated request to scan `target` with `options`. */
  datatype Invocation = Invocation(target: string, options: ScanOptions)

  /** The `scan [target]` command: an absent target means ".", an absent
      `--format` means terminal (the default is not passed through the
      validator), and each given option must pass its validator. */
  function ScanCommand(target: Option<string>, format: Option<string>, output: Option<string>,
                       failOn: Option<string>): (r: Result<Invocation, string>)
    ensures r.Success? <==>
              (format.None? || format.value in {"terminal", "markdown", "json"}) &&
              (failOn.None? || failOn.value in {"info", "warning", "error", "fatal"})
    ensures r.Success? ==> r.value.target == (if target.Some? then target.value else ".")
    ensures r.Success? ==> r.value.options.output == output
    ensures r.Success? && format.None? ==> r.value.options.format == Terminal
    ensures r.Success? && format.Some? ==> FormatName(r.value.options.format) == format.value
    ensures r.Success? ==> (r.value.options.failOn.None? <==> failOn.None?)
    ensures r.Success? && failOn.Some? ==> SeverityName(r.value.options.failOn.value) == failOn.value
  {
    var fmt := if format.Some? then ParseOutputFormat(format.value) else Success(Terminal);
    var threshold := if failOn.Some? then ParseFailSeverity(failOn.value) else Success(Ok);
    if fmt.Failure? then Failure(fmt.error)
    else if threshold.Failure? then Failure(threshold.error)
    else
      var failSeverity := if failOn.Some? then Some(threshold.value) else None;
      Success(Invocation(target.GetOr("."), ScanOptions(fmt.value, output, failSeverity)))
  }

  /** Running the program with no subcommand. */
  function DefaultCommand(): Invocation {
    Invocation(".", ScanOptions(Terminal, None, None))
  }

  /** Running without a subcommand is the same as `scan` with no target and no options. */
  lemma DefaultIsScanDot()
    ensures ScanCommand(None, None, None, None) == Success(DefaultCommand())
  {
  }
}
