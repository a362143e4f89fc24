# repo-sanity decision core in Dafny

`repo-sanity` is a command-line auditor for JavaScript/TypeScript repositories.
It takes an immutable snapshot of a repository: its set of file paths and its
parsed `package.json`. It runs configuration rules over that snapshot and
reports severity-ranked findings. This project models the decision logic of
that tool and proves properties of it:

- **Types** (`types.dfy`): `Severity`, `Finding`, `Report`, `ScanContext` and
  `OutputFormat`. **Json** (`json.dfy`) is an untyped JSON value, together with
  the JavaScript operators the rules apply to it: truthiness, `typeof`,
  `Array.isArray`, property lookup and `=== true`.
- **TsConfigSafety** (`ts_config_safety.dfy`): the TypeScript configuration
  rule. It short-circuits when `tsconfig.json` is missing, unreadable or
  malformed. Otherwise it runs five compiler-flag checks in a fixed order, with
  an `ok` fallback. The rule's code is proved equal to a table-driven reference:
  the five checks filtered by their firing condition.
- **EslintCoverage** (`eslint_coverage.dfy`): the ESLint coverage rule. It does
  a first-match search over the ten conventional config names, reads the
  manifest defensively, merges `dependencies` and `devDependencies` (the second
  wins on a clash), runs three sub-checks that do not short-circuit, and adds a
  rollup `ok`.
- **Cli** (`cli.dfy`): severity ranking, `highestSeverity` as a left fold, the
  `--fail-on` exit decision, the `--format` / `--fail-on` validators, and the
  default scan target.
- **Markdown** (`markdown.dfy`): the Markdown report renderer. It is proved to
  end with a newline. When no field of the report contains a newline, splitting
  the output at newlines gives back exactly the header, one row per finding
  (or the explicit empty-report row) and a final empty line.
- **Strings** (`strings.dfy`) and **Wrappers** (`wrappers.dfy`) are support
  modules. Strings provides `join`, `split` (proved to invert `join`),
  `includes` (proved equal to "some offset holds an occurrence") and decimal
  rendering of integers (proved to read back).

Foreign calls are parameters of the model:
- the result of reading `tsconfig.json` is an `Option<string>`, where `None`
  means the read failed;
- the JSONC parser is a function `string -> ParseOutcome` (diagnostics plus the
  recovered value);
- `printParseErrorCode` is a function `int -> string`.

## Model

| member | source | states |
|---|---|---|
| Cli.RankOrder | src/index.ts:16-22 | ranks are strictly increasing ok < info < warning < error < fatal, so the ranking is injective, `ok` is the unique rank-0 minimum and `fatal` the unique rank-4 maximum |
| Cli.FoldHighest | src/index.ts:36-42 | the fold's result ranks at least as high as its seed and as every finding, and it is the seed or the severity of some finding |
| Cli.HighestSeverity | src/index.ts:35-43 | an empty report yields `ok`; the result ranks at least as high as every finding and is either `ok` or some finding's severity |
| Cli.AppendNeverLowers | src/index.ts:36-42 | appending findings to a report never lowers the rank of its highest severity |
| Cli.FailOnExitCode | src/index.ts:94-99 | with no threshold the exit code is left untouched; with a threshold other than `ok`, it becomes 1 exactly when some finding ranks at or above the threshold |
| Cli.OnlyOkNeverFails | src/index.ts:59-65 | for every threshold the validator accepts, a report whose findings are all `ok` (or that has none) never sets the exit code |
| Cli.FindByName | src/index.ts:52 | the allowed-list lookup returns a candidate spelled exactly as the input, and fails exactly when no candidate is spelled that way |
| Cli.ParseOutputFormat | src/index.ts:51-57 | accepts exactly "terminal", "markdown" and "json" and returns the format with that spelling; any other value fails with the message naming the value and the three choices |
| Cli.ParseFailSeverity | src/index.ts:59-65 | accepts exactly "info", "warning", "error" and "fatal" and returns the severity with that spelling, never `ok`; any other value, "ok" included, fails with the message listing the four choices |
| Cli.ScanCommand | src/index.ts:132-163 | the scan command succeeds exactly when each given option is valid; the target defaults to "." only when absent; the format defaults to terminal; the threshold is present exactly when `--fail-on` was given and has its spelling |
| Cli.DefaultIsScanDot | src/index.ts:165-168 | running with no subcommand is the same request as `scan` with no target and no options: target ".", terminal format, no output file, no threshold |
| Json.RecordLikeIsObject | src/rules/eslintCoverage.ts:32 | the guard `v && typeof v === 'object' && !Array.isArray(v)` holds exactly for JSON objects: it rejects `undefined`, `null`, scalars and arrays |
| Json.RecordOrEmpty | src/rules/eslintCoverage.ts:48-53 | a field that is a JSON object is spread as itself; anything else is spread as `{}` |
| TsConfigSafety.GetCompilerOptions | src/rules/tsConfigSafety.ts:8-15 | `compilerOptions` is returned when it is a JSON object; when it is missing, `null`, a scalar or an array the result is the empty record |
| TsConfigSafety.Fired | src/rules/tsConfigSafety.ts:68-116 | the policy table read as a filter yields at most one finding per check, none of them `ok`, all with rule id `tsconfig-safety` and citing `tsconfig.json` |
| TsConfigSafety.FlagChecks | src/rules/tsConfigSafety.ts:66-126 | the five `if`s as written, in their order, equal the policy table's fired findings, or `[ok]` when none fire |
| TsConfigSafety.FlagChecksShape | src/rules/tsConfigSafety.ts:66-126 | 1 to 5 findings, all with rule id `tsconfig-safety` and citing `tsconfig.json`; an `ok` finding occurs only as the sole finding |
| TsConfigSafety.FiredMembership | src/rules/tsConfigSafety.ts:68-116 | a check's finding is among the results exactly when the check is listed and its condition holds |
| TsConfigSafety.FiredEmpty | src/rules/tsConfigSafety.ts:118-126 | no finding is produced exactly when no check fires |
| TsConfigSafety.FlagPolicy | src/rules/tsConfigSafety.ts:68-126 | for the five flags as read: each flag finding appears exactly when its condition holds (strict, noUncheckedIndexedAccess, exactOptionalPropertyTypes off; allowJs, skipLibCheck on); the result is the lone `ok` exactly when the first three are on and the last two off |
| TsConfigSafety.EmptyOptionsFindings | src/rules/tsConfigSafety.ts:66-96 | an options record that is empty or missing yields exactly the strict-mode error followed by the two warnings |
| TsConfigSafety.OnlyLiteralTrueEnables | src/rules/tsConfigSafety.ts:68 | any `strict` value other than the boolean `true` is reported as disabled, including "true" and 1 |
| TsConfigSafety.CheckTsConfigSafety | src/rules/tsConfigSafety.ts:21-129 | missing file: one warning with no files. Null or empty text: one "Unable to read" error citing tsconfig.json. Parse errors or a non-object value: one error whose summary is the error names joined by ", ". Otherwise the flag findings. Always 1 to 5 findings, all with rule id `tsconfig-safety`, and `ok` never alongside another finding |
| TsConfigSafety.StrictBaselinePasses | tests/tsConfigSafety.test.ts:31-55 | a config enabling strict, noUncheckedIndexedAccess and exactOptionalPropertyTypes yields exactly the single `ok` finding |
| EslintCoverage.ConfigNamesNonEmpty | src/rules/eslintCoverage.ts:3-14 | no conventional config name is the empty string, so the truthiness test on a found name is the same as "a name was found" |
| EslintCoverage.HasAnyFile | src/rules/eslintCoverage.ts:16-24 | returns the earliest candidate present in the file set; returns nothing exactly when no candidate is present |
| EslintCoverage.GetScript | src/rules/eslintCoverage.ts:26-38 | a script is returned exactly when the manifest is an object whose `scripts` is an object holding a string under the name, and then it is that string |
| EslintCoverage.MergedDependencies | src/rules/eslintCoverage.ts:45-54 | the merged keys are the union of both maps' keys; `devDependencies` wins on a clash; a non-object field contributes nothing |
| EslintCoverage.HasEslintDependency | src/rules/eslintCoverage.ts:40-57 | true exactly when `eslint` is a string in `devDependencies`, or, when `devDependencies` does not name it, a string in `dependencies` |
| EslintCoverage.ConfigCheck | src/rules/eslintCoverage.ts:61-78 | a found config file gives an `ok` finding citing that file; otherwise a warning "ESLint config not found" with no files; the finding is `ok` exactly when a config file exists |
| EslintCoverage.LintScriptCheck | src/rules/eslintCoverage.ts:90-107 | at most one finding. A missing or empty lint script gives exactly the "lint script is missing" warning. A non-empty script with no occurrence of "eslint" gives exactly the info finding built from that script. Nothing is reported exactly when the script is non-empty and contains "eslint" |
| EslintCoverage.RollupShape | src/rules/eslintCoverage.ts:109-117 | for any sub-check outcomes: 1 to 3 findings, the config finding first; the last finding is the rollup exactly when every finding is `ok`, which happens exactly when the config check passed and the other two reported nothing, and then there are two findings |
| EslintCoverage.RollupExtends | src/rules/eslintCoverage.ts:109-117 | the rollup keeps the findings it inspected, in order, and adds at most the baseline finding after them |
| EslintCoverage.Assemble | src/rules/eslintCoverage.ts:80-117 | for any config finding, declaration outcome and lint-script outcome: 1 to 3 findings, the config finding first; the rollup is last exactly when all are `ok`, which happens exactly when the config finding is `ok`, eslint is declared and the script check is silent |
| EslintCoverage.AssembleDependency | src/rules/eslintCoverage.ts:80-88 | when the other sub-checks never produce the dependency warning, it is in the result exactly when eslint is not declared |
| EslintCoverage.OnlyDependencyCheckWarnsDependency | src/rules/eslintCoverage.ts:61-107 | neither the config check nor the lint-script check ever produces the dependency warning |
| EslintCoverage.CheckEslintCoverage | src/rules/eslintCoverage.ts:59-120 | 1 to 3 findings, all with rule id `eslint-coverage`, the config check first; the rollup is last exactly when all findings are `ok`, which happens exactly when a config file exists, eslint is declared and the lint script check is silent |
| EslintCoverage.SubCheckOrder | src/rules/eslintCoverage.ts:59-120 | the findings are the config check, then the dependency warning if any, then the lint-script finding if any, optionally followed by the rollup |
| EslintCoverage.DependencyWarningIffUndeclared | src/rules/eslintCoverage.ts:80-88 | the dependency warning is reported exactly when eslint is not declared |
| EslintCoverage.HealthyYieldsTwoOk | src/rules/eslintCoverage.ts:109-117 | a config file, a declared eslint and a lint script calling eslint give exactly two `ok` findings: the config confirmation and the rollup |
| EslintCoverage.EmptyRepositoryWarnings | tests/eslintCoverage.test.ts:6-16 | no files and no manifest give exactly three warnings (config not found, dependency not declared, lint script missing) and no rollup |
| EslintCoverage.HealthyExample | tests/eslintCoverage.test.ts:18-35 | the healthy fixture has no warning and ends with the baseline finding |
| Strings.ContainsIffOccurs | src/rules/eslintCoverage.ts:99 | the substring search holds exactly when some offset of the text holds the searched string |
| Strings.NumeralCanonical | src/reporters/markdown.ts:25-26 | a canonical numeral is exactly the decimal rendering of the number it reads as, so two numerals showing the same number are the same text |
| Markdown.BadgeInjective | src/reporters/markdown.ts:3-9 | the badge map gives each severity its own label, and no label contains a newline |
| Markdown.RenderFiles | src/reporters/markdown.ts:11-17 | absent or empty files render "-", otherwise the files joined by ", " in order; the result is "-" exactly when files are absent, empty or the single name "-" |
| Markdown.HeaderText | src/reporters/markdown.ts:20-32 | the eleven header lines read "# Repo Sanity Report", "", "- Target: \`<target>\`", "- Generated at: \`<timestamp>\`", the score and count lines, "", "## Findings", "", then the column titles and the alignment row, as literal text |
| Markdown.DocumentLines | src/reporters/markdown.ts:20-44 | the document's lines as literal text: the header with the report's target and timestamp; for an empty report exactly the row "\| OK \| - \| No findings \| No issues detected \| - \|", otherwise line 11 + i is the row "\| badge \| rule \| title \| summary \| files \|" of the i-th finding; a final empty line |
| Markdown.RenderMarkdownReport | src/reporters/markdown.ts:19-46 | the rendered document is non-empty and ends with a newline |
| Markdown.RenderSplitsIntoLines | src/reporters/markdown.ts:44-45 | when no field of the report contains a newline, splitting the document at newlines gives back exactly its lines |
| Markdown.ScoreAndCountShown | src/reporters/markdown.ts:25-26 | the Score and Findings lines show a canonical decimal numeral (digits only, no leading zero) that reads back as the report's score and as its number of findings |

## Left out

- Aggregation (`scanRepository`: concatenating rule results, sorting by severity, the score formula) is not part of this model. src/index.ts:10 and tests/scanner.test.ts:5 import `scanRepository` from src/scanner.ts, but that file does not define it, so the repository holds no definition to model.
- `src/scanner.ts` (`fileExists`, `readTextFile`, `resolveTargetPath`) does file-system access, path resolution and console logging. Its effect reaches the model only as the `Option<string>` read result.
- The JSONC parser, `printParseErrorCode` and the file read are foreign. They are parameters, so no property of the parser itself is assumed.
- Command-line plumbing is not modelled: help texts, the colour helpers, `writeOutput`, stdout/stderr writes and `main`'s error handler. The same goes for `renderByFormat`, a three-way dispatch.
- The terminal renderer (mostly colouring) and the JSON renderer (a direct `JSON.stringify`) are not modelled.
- Rules are modelled as synchronous functions; their `async`/`Promise` structure is left out.
- The optional `details` and `impact` fields of `Finding` are not represented, because no code reads or writes them.
- JSON numbers, and the report score, are integers. Floating point and its rendering (`NaN`, fractions, exponents) are not modelled.
- Property lookup sees only a JSON object's own keys. Inherited prototype members are not modelled: a key such as `__proto__` would reach `Object.prototype`, which passes the object guard. The rules read only fixed keys that no object inherits: `scripts`, `lint`, `dependencies`, `devDependencies`, `eslint`, `compilerOptions` and the five compiler flags, so the difference never shows, provided the JSON and JSONC parsers store every member as an own property. A parser that builds objects by assignment would let a `"__proto__"` member replace the prototype, making `compilerOptions` or a flag inherited; the model assumes parsers that do not.
- Cli.ScanCommand: when both `--format` and `--fail-on` are invalid, the model reports the format error. The command-line parser reports whichever option comes first on the command line, and argument order is not modelled.
- Markdown.RenderFiles: "-" marks a finding without files, but a single file literally named "-" renders the same way, so the contract states the exact condition rather than "no files". No rule ever cites such a file.
- Markdown.RenderSplitsIntoLines: the split round trip is proved only for reports whose text fields contain no newline. A summary that embeds a newline (a lint script taken from `package.json`, say) breaks the table row across lines.
