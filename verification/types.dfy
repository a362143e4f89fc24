/** The shared value types of the auditor: severities, findings, reports and
    the read-only snapshot every rule receives. */
module Types {
  import opened Wrappers
  import Json

  /** The five severities; their order is given by `Cli.SeverityRank`. */
  datatype Severity = Ok | Info | Warning | Error | Fatal

  /** The string spelling of a severity, as it appears on the command line and in JSON output. */
  function SeverityName(s: Severity): string {
    match s
    case Ok => "ok"
    case Info => "info"
    case Warning => "warning"
    case Error => "error"
    case Fatal => "fatal"
  }

  /** One reported observation. `files` is `None` when the rule leaves `files`
      out; the optional `details` and `impact` properties are never set by
      any rule and are not represented. */
  datatype Finding = Finding(
    ruleId: string,
    severity: Severity,
    title: string,
    summary: string,
    files: Option<seq<string>>)

  /** The result of one scan. `score` is a JavaScript number, here an integer. */
  datatype Report = Report(
    targetPath: string,
    generatedAt: string,
    score: int,
    findings: seq<Finding>)

  /** The immutable snapshot a rule inspects: the repository-relative file
      paths and the parsed root manifest, `None` when it is absent. */
  datatype ScanContext = ScanContext(
    targetPath: string,
    files: set<string>,
    packageJson: Option<Json.Value>)

  datatype OutputFormat = Terminal | Markdown | JsonFormat

  /** The string spelling of an output format, as accepted by `--format`. */
  function FormatName(f: OutputFormat): string {
    match f
    case Terminal => "terminal"
    case Markdown => "markdown"
    case JsonFormat => "json"
  }
}
