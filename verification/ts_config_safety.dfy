/** The TypeScript configuration safety rule. It looks for `tsconfig.json` at
    the repository root and short-circuits on a missing, unreadable or
    malformed file; otherwise it checks five compiler flags in a fixed order. */
module TsConfigSafety {
  import opened Wrappers
  import opened Types
  import Json
  import Strings

  const RULE_ID := "tsconfig-safety"
  const TSCONFIG_FILE := "tsconfig.json"

  /** One diagnostic of the JSONC parser: an error code and the span it covers. */
  datatype ParseError = ParseError(error: int, offset: int, length: int)

  /** What the tolerant JSONC parser reports for a text: its diagnostics and the
      value it recovered (`None` for `undefined`). */
  datatype ParseOutcome = ParseOutcome(errors: seq<ParseError>, value: Option<Json.Value>)

  /** `compilerOptions` of the parsed configuration when it is a JSON object,
      the empty record otherwise (missing, `null`, a scalar or an array). */
  function GetCompilerOptions(raw: map<string, Json.Value>): (opts: map<string, Json.Value>)
    ensures "compilerOptions" in raw && raw["compilerOptions"].Object? ==>
              opts == raw["compilerOptions"].fields
    ensures !("compilerOptions" in raw && raw["compilerOptions"].Object?) ==> opts == map[]
  {
    var value := Json.Get(Json.Object(raw), "compilerOptions");
    if !Json.Truthy(value) || Json.TypeOf(value) != "object" || Json.IsArray(value) then map[]
    else value.value.fields
  }

  predicate HasFile(context: ScanContext, filePath: string) {
    filePath in context.files
  }

  /** `opts[key] === true`. */
  predicate Enabled(opts: map<string, Json.Value>, key: string) {
    Json.IsTrue(if key in opts then Some(opts[key]) else None)
  }

  function CiteConfig(): Option<seq<string>> {
    Some([TSCONFIG_FILE])
  }

  const MISSING_CONFIG := Finding(RULE_ID, Warning, "tsconfig.json not found",
    "No root TypeScript configuration was found. Type safety defaults may be inconsistent.", None)
  const UNREADABLE_CONFIG := Finding(RULE_ID, Error, "Unable to read tsconfig.json",
    "The file exists but could not be read.", CiteConfig())
  const STRICT_DISABLED := Finding(RULE_ID, Error, "strict mode is disabled",
    "Set compilerOptions.strict=true to avoid hidden type issues.", CiteConfig())
  const UNCHECKED_INDEX := Finding(RULE_ID, Warning, "noUncheckedIndexedAccess is not enabled",
    "Index access can silently return undefined without explicit handling.", CiteConfig())
  const LOOSE_OPTIONALS := Finding(RULE_ID, Warning, "exactOptionalPropertyTypes is not enabled",
    "Optional property semantics may be looser than expected.", CiteConfig())
  const ALLOW_JS := Finding(RULE_ID, Warning, "allowJs is enabled",
    "Mixed JS/TS projects need explicit boundaries to avoid type-safety blind spots.", CiteConfig())
  const SKIP_LIB_CHECK := Finding(RULE_ID, Info, "skipLibCheck is enabled",
    "Builds are faster, but declaration issues in dependencies are not checked.", CiteConfig())
  const BASELINE_OK := Finding(RULE_ID, Ok, "TypeScript safety baseline looks good",
    "Core strictness flags are enabled in tsconfig.json.", CiteConfig())

  /** The finding reporting a syntactically invalid configuration, whose
      summary lists the parser's error names. */
  function InvalidSyntax(summary: string): Finding {
    Finding(RULE_ID, Error, "Invalid tsconfig.json syntax", summary, CiteConfig())
  }

  /** The error names of the parser diagnostics, in order. */
  function ErrorNames(errors: seq<ParseError>, printCode: int -> string): (names: seq<string>)
    ensures |names| == |errors|
    ensures forall i :: 0 <= i < |errors| ==> names[i] == printCode(errors[i].error)
  {
    seq(|errors|, i requires 0 <= i < |errors| => printCode(errors[i].error))
  }

  /** The five compiler flags the rule inspects, each read as `opts[key] === true`. */
  datatype Flags = Flags(strict: bool, noUncheckedIndexedAccess: bool, exactOptionalPropertyTypes: bool,
                         allowJs: bool, skipLibCheck: bool)

  /** Reads each flag once from the compiler options. */
  function ReadFlags(opts: map<string, Json.Value>): Flags {
    Flags(Enabled(opts, "strict"), Enabled(opts, "noUncheckedIndexedAccess"),
          Enabled(opts, "exactOptionalPropertyTypes"), Enabled(opts, "allowJs"),
          Enabled(opts, "skipLibCheck"))
  }

  /** The five compiler-option checks of the rule, in the order it runs them. */
  datatype SafetyCheck = StrictCheck | UncheckedIndexCheck | ExactOptionalCheck | AllowJsCheck | SkipLibCheck

  const CHECK_ORDER: seq<SafetyCheck> :=
    [StrictCheck, UncheckedIndexCheck, ExactOptionalCheck, AllowJsCheck, SkipLibCheck]

  /** The condition under which a check reports: three flags must be literally
      `true`, two must not be. */
  predicate Fires(c: SafetyCheck, flags: Flags) {
    match c
    case StrictCheck => !flags.strict
    case UncheckedIndexCheck => !flags.noUncheckedIndexedAccess
    case ExactOptionalCheck => !flags.exactOptionalPropertyTypes
    case AllowJsCheck => flags.allowJs
    case SkipLibCheck => flags.skipLibCheck
  }

  function CheckFinding(c: SafetyCheck): Finding {
    match c
    case StrictCheck => STRICT_DISABLED
    case UncheckedIndexCheck => UNCHECKED_INDEX
    case ExactOptionalCheck => LOOSE_OPTIONALS
    case AllowJsCheck => ALLOW_JS
    case SkipLibCheck => SKIP_LIB_CHECK
  }

  /** The findings of the checks in `checks` that fire, in order: the policy
      table read as a filter. */
  function Fired(checks: seq<SafetyCheck>, flags: Flags): (r: seq<Finding>)
    ensures |r| <= |checks|
    ensures forall i :: 0 <= i < |r| ==>
              r[i].ruleId == RULE_ID && r[i].files == CiteConfig() && r[i].severity != Ok
    decreases |checks|
  {
    if |checks| == 0 then []
    else Hit(checks[0], flags) + Fired(checks[1..], flags)
  }

  /** The finding of one check when it fires, nothing otherwise. */
  function Hit(c: SafetyCheck, flags: Flags): seq<Finding> {
    if Fires(c, flags) then [CheckFinding(c)] else []
  }

  /** The five flag checks as the rule writes them, one `if` after the other,
      with the `ok` fallback when none fires. They agree with the policy table. */
  function FlagChecks(flags: Flags): (r: seq<Finding>)
    ensures var fired := Fired(CHECK_ORDER, flags);
            r == if fired == [] then [BASELINE_OK] else fired
  {
    var strict := if !flags.strict then [STRICT_DISABLED] else [];
    var index := if !flags.noUncheckedIndexedAccess then [UNCHECKED_INDEX] else [];
    var optional := if !flags.exactOptionalPropertyTypes then [LOOSE_OPTIONALS] else [];
    var allowJs := if flags.allowJs then [ALLOW_JS] else [];
    var skipLib := if flags.skipLibCheck then [SKIP_LIB_CHECK] else [];
    var findings := strict + (index + (optional + (allowJs + skipLib)));
    FiredInOrder(flags);
    assert strict == Hit(StrictCheck, flags) && index == Hit(UncheckedIndexCheck, flags);
    assert optional == Hit(ExactOptionalCheck, flags) && allowJs == Hit(AllowJsCheck, flags);
    assert skipLib == Hit(SkipLibCheck, flags);
    assert findings == Fired(CHECK_ORDER, flags);
    if |findings| == 0 then [BASELINE_OK] else findings
  }

  /** What the reference equality implies: one to five findings, all of this
      rule and citing tsconfig.json, and `ok` only on its own. */
  lemma FlagChecksShape(flags: Flags)
    ensures var r := FlagChecks(flags);
            && 1 <= |r| <= 5
            && (forall i :: 0 <= i < |r| ==> r[i].ruleId == RULE_ID && r[i].files == CiteConfig())
            && ((exists i :: 0 <= i < |r| && r[i].severity == Ok) ==> r == [BASELINE_OK])
  {
    var fired := Fired(CHECK_ORDER, flags);
    if fired == [] {
      assert FlagChecks(flags) == [BASELINE_OK];
    } else {
      assert FlagChecks(flags) == fired;
    }
  }

  /** The flag findings of a compiler-options record. */
  function FlagFindings(opts: map<string, Json.Value>): seq<Finding> {
    FlagChecks(ReadFlags(opts))
  }

  /** Unrolls the policy filter over the five checks. */
  lemma FiredInOrder(flags: Flags)
    ensures Fired(CHECK_ORDER, flags) ==
      Hit(StrictCheck, flags) + (Hit(UncheckedIndexCheck, flags) + (Hit(ExactOptionalCheck, flags)
      + (Hit(AllowJsCheck, flags) + Hit(SkipLibCheck, flags))))
  {
    var c := CHECK_ORDER;
    var c1 := [UncheckedIndexCheck, ExactOptionalCheck, AllowJsCheck, SkipLibCheck];
    var c2 := [ExactOptionalCheck, AllowJsCheck, SkipLibCheck];
    var c3 := [AllowJsCheck, SkipLibCheck];
    var c4 := [SkipLibCheck];
    assert c[1..] == c1 && c1[1..] == c2 && c2[1..] == c3 && c3[1..] == c4 && c4[1..] == [];
    assert Fired(c4, flags) == Hit(SkipLibCheck, flags) + [];
    assert Hit(SkipLibCheck, flags) + [] == Hit(SkipLibCheck, flags);
    assert Fired(c3, flags) == Hit(AllowJsCheck, flags) + Fired(c4, flags);
    assert Fired(c2, flags) == Hit(ExactOptionalCheck, flags) + Fired(c3, flags);
    assert Fired(c1, flags) == Hit(UncheckedIndexCheck, flags) + Fired(c2, flags);
  }

  lemma CheckFindingInjective(a: SafetyCheck, b: SafetyCheck)
    ensures CheckFinding(a) == CheckFinding(b) ==> a == b
  {
  }

  /** A check's finding is among the filtered findings exactly when the check
      is listed and fires. */
  lemma {:induction false} FiredMembership(checks: seq<SafetyCheck>, flags: Flags, c: SafetyCheck)
    ensures CheckFinding(c) in Fired(checks, flags) <==> c in checks && Fires(c, flags)
    decreases |checks|
  {
    if |checks| > 0 {
      FiredMembership(checks[1..], flags, c);
      CheckFindingInjective(c, checks[0]);
      assert checks == [checks[0]] + checks[1..];
    }
  }

  /** The filter is empty exactly when no listed check fires. */
  lemma {:induction false} FiredEmpty(checks: seq<SafetyCheck>, flags: Flags)
    ensures Fired(checks, flags) == [] <==> forall i :: 0 <= i < |checks| ==> !Fires(checks[i], flags)
    decreases |checks|
  {
    if |checks| > 0 {
      FiredEmpty(checks[1..], flags);
      assert forall i :: 1 <= i < |checks| ==> checks[i] == checks[1..][i - 1];
    }
  }

  /** The compiler-option policy: each check reports exactly when its
      condition holds, and the `ok` finding appears, alone, exactly when none does. */
  lemma FlagPolicy(flags: Flags, c: SafetyCheck)
    ensures CheckFinding(c) in FlagChecks(flags) <==> Fires(c, flags)
    ensures FlagChecks(flags) == [BASELINE_OK] <==>
              flags.strict && flags.noUncheckedIndexedAccess && flags.exactOptionalPropertyTypes &&
              !flags.allowJs && !flags.skipLibCheck
  {
    FiredMembership(CHECK_ORDER, flags, c);
    FiredEmpty(CHECK_ORDER, flags);
    var fired := Fired(CHECK_ORDER, flags);
    if fired != [] {
      assert fired[0].severity != Ok;
    }
    assert c in CHECK_ORDER;
  }

  /** Missing or non-object `compilerOptions` behave as `{}`: strict mode and
      the two index/optional flags are reported, nothing else. */
  lemma EmptyOptionsFindings()
    ensures FlagFindings(map[]) == [STRICT_DISABLED, UNCHECKED_INDEX, LOOSE_OPTIONALS]
  {
    assert ReadFlags(map[]) == Flags(false, false, false, false, false);
  }

  /** The rule. `tsConfigText` is what reading `tsconfig.json` produced (`None`
      when the read failed); `parse` is the JSONC parser with trailing commas
      allowed and `printCode` the parser's error-code printer, both foreign. */
  function CheckTsConfigSafety(context: ScanContext, tsConfigText: Option<string>,
                               parse: string -> ParseOutcome, printCode: int -> string): (r: seq<Finding>)
    ensures 1 <= |r| <= 5
    ensures forall i :: 0 <= i < |r| ==> r[i].ruleId == RULE_ID
    ensures (exists i :: 0 <= i < |r| && r[i].severity == Ok) ==> |r| == 1
    // A missing file stops the rule with one warning that cites no file.
    ensures TSCONFIG_FILE !in context.files ==>
              |r| == 1 && r[0].severity == Warning && r[0].files == None
    // A file that cannot be read, or reads as empty, stops it with one error.
    ensures TSCONFIG_FILE in context.files && !(tsConfigText.Some? && tsConfigText.value != "") ==>
              |r| == 1 && r[0].severity == Error && r[0].files == Some([TSCONFIG_FILE]) &&
              r[0].title == "Unable to read tsconfig.json"
    // A parse error, or a parsed value that is not an object, stops it with
    // one error whose summary names the parse errors.
    ensures TSCONFIG_FILE in context.files && tsConfigText.Some? && tsConfigText.value != "" &&
            (|parse(tsConfigText.value).errors| > 0 || !(parse(tsConfigText.value).value.Some? &&
                                                         parse(tsConfigText.value).value.value.Object?)) ==>
              |r| == 1 && r[0].severity == Error && r[0].files == Some([TSCONFIG_FILE]) &&
              r[0].title == "Invalid tsconfig.json syntax" &&
              r[0].summary == Strings.Join(ErrorNames(parse(tsConfigText.value).errors, printCode), ", ")
    // Otherwise the outcome is decided by the compiler options alone.
    ensures TSCONFIG_FILE in context.files && tsConfigText.Some? && tsConfigText.value != "" &&
            |parse(tsConfigText.value).errors| == 0 && parse(tsConfigText.value).value.Some? &&
            parse(tsConfigText.value).value.value.Object? ==>
              r == FlagFindings(GetCompilerOptions(parse(tsConfigText.value).value.value.fields))
  {
    if !HasFile(context, TSCONFIG_FILE) then
      [MISSING_CONFIG]
    else if !Json.TruthyString(tsConfigText) then
      [UNREADABLE_CONFIG]
    else
      var parsed := parse(tsConfigText.value);
      Json.RecordLikeIsObject(parsed.value);
      if |parsed.errors| > 0 || !Json.Truthy(parsed.value) || Json.TypeOf(parsed.value) != "object"
         || Json.IsArray(parsed.value) then
        [InvalidSyntax(Strings.Join(ErrorNames(parsed.errors, printCode), ", "))]
      else
        var opts := GetCompilerOptions(parsed.value.value.fields);
        FlagChecksShape(ReadFlags(opts));
        FlagFindings(opts)
  }

  /** The compiler options of the strict baseline configuration. */
  function StrictOptions(): map<string, Json.Value> {
    map["strict" := Json.Bool(true),
        "noUncheckedIndexedAccess" := Json.Bool(true),
        "exactOptionalPropertyTypes" := Json.Bool(true)]
  }

  /** The strict baseline enables the three strictness flags and neither of the other two. */
  lemma StrictOptionsFlags()
    ensures ReadFlags(StrictOptions()) == Flags(true, true, true, false, false)
  {
    assert "allowJs" !in StrictOptions() && "skipLibCheck" !in StrictOptions();
  }

  /** A configuration that enables the three strictness flags and leaves
      `allowJs` and `skipLibCheck` unset passes with the single `ok` finding. */
  lemma StrictBaselinePasses(context: ScanContext, text: string, parse: string -> ParseOutcome,
                             printCode: int -> string)
    requires TSCONFIG_FILE in context.files && text != ""
    requires parse(text) == ParseOutcome([], Some(Json.Object(map["compilerOptions" := Json.Object(StrictOptions())])))
    ensures CheckTsConfigSafety(context, Some(text), parse, printCode) == [BASELINE_OK]
  {
    var raw := parse(text).value.value.fields;
    assert GetCompilerOptions(raw) == StrictOptions();
    StrictOptionsFlags();
    FlagPolicy(Flags(true, true, true, false, false), StrictCheck);
  }

  /** Only the boolean literal `true` enables a flag: the string "true" or the
      number 1 leave strict mode reported as disabled. */
  lemma OnlyLiteralTrueEnables(v: Json.Value)
    requires v != Json.Bool(true)
    ensures STRICT_DISABLED in FlagFindings(map["strict" := v])
  {
    var flags := ReadFlags(map["strict" := v]);
    assert !flags.strict;
    FlagPolicy(flags, StrictCheck);
  }
}
