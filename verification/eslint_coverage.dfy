/** The ESLint coverage rule: three sub-checks that all run (config file,
    declared dependency, `lint` script), followed by a rollup `ok` finding
    when none of them reported a problem. */
module EslintCoverage {
  import opened Wrappers
  import opened Types
  import Json
  import Strings

  const RULE_ID := "eslint-coverage"

  /** Conventional ESLint configuration file names, in lookup order. */
  const ESLINT_CONFIG_FILES: seq<string> := [
    "eslint.config.js",
    "eslint.config.mjs",
    "eslint.config.cjs",
    "eslint.config.ts",
    ".eslintrc",
    ".eslintrc.js",
    ".eslintrc.cjs",
    ".eslintrc.json",
    ".eslintrc.yaml",
    ".eslintrc.yml"
  ]

  /** No configuration file name is empty, so a found name is always truthy. */
  lemma ConfigNamesNonEmpty()
    ensures "" !in ESLINT_CONFIG_FILES
  {
  }

  /** The first candidate, in list order, that is one of the repository's files. */
  function HasAnyFile(context: ScanContext, candidates: seq<string>): (r: Option<string>)
    ensures r.None? <==> forall i :: 0 <= i < |candidates| ==> candidates[i] !in context.files
    ensures r.Some? ==> exists i :: 0 <= i < |candidates| && candidates[i] == r.value &&
                          r.value in context.files &&
                          forall j :: 0 <= j < i ==> candidates[j] !in context.files
    decreases |candidates|
  {
    if |candidates| == 0 then None
    else if candidates[0] in context.files then Some(candidates[0])
    else
      var r := HasAnyFile(context, candidates[1..]);
      assert forall i :: 1 <= i < |candidates| ==> candidates[i] == candidates[1..][i - 1];
      r
  }

  /** The manifest's `scripts[name]` when it is a string. */
  function GetScript(packageJson: Option<Json.Value>, name: string): (r: Option<string>)
    ensures r.Some? <==>
              packageJson.Some? && packageJson.value.Object? &&
              "scripts" in packageJson.value.fields &&
              packageJson.value.fields["scripts"].Object? &&
              name in packageJson.value.fields["scripts"].fields &&
              packageJson.value.fields["scripts"].fields[name].Str?
    ensures r.Some? ==> r.value == packageJson.value.fields["scripts"].fields[name].s
  {
    if !Json.Truthy(packageJson) then None
    else
      var scripts := Json.Get(packageJson.value, "scripts");
      Json.RecordLikeIsObject(scripts);
      if !Json.Truthy(scripts) || Json.TypeOf(scripts) != "object" || Json.IsArray(scripts) then None
      else
        var value := Json.Get(scripts.value, name);
        if Json.TypeOf(value) == "string" then Some(value.value.s) else None
  }

  /** The manifest's `field` entry for `key`, when the manifest and that field
      are both JSON objects. */
  function Declared(packageJson: Option<Json.Value>, field: string, key: string): Option<Json.Value> {
    if packageJson.Some? && packageJson.value.Object? && field in packageJson.value.fields
       && packageJson.value.fields[field].Object? && key in packageJson.value.fields[field].fields
    then Some(packageJson.value.fields[field].fields[key])
    else None
  }

  /** `dependencies` merged with `devDependencies`; a field that is not a JSON
      object contributes nothing, and on a clash `devDependencies` wins. */
  function MergedDependencies(packageJson: Json.Value): (merged: map<string, Json.Value>)
    ensures forall key :: key in merged <==>
              Declared(Some(packageJson), "dependencies", key).Some? ||
              Declared(Some(packageJson), "devDependencies", key).Some?
    ensures forall key :: Declared(Some(packageJson), "devDependencies", key).Some? ==>
              key in merged && merged[key] == Declared(Some(packageJson), "devDependencies", key).value
    ensures forall key :: Declared(Some(packageJson), "devDependencies", key).None? &&
                          Declared(Some(packageJson), "dependencies", key).Some? ==>
              key in merged && merged[key] == Declared(Some(packageJson), "dependencies", key).value
  {
    var deps := Json.Get(packageJson, "dependencies");
    var devDeps := Json.Get(packageJson, "devDependencies");
    Json.RecordOrEmpty(deps) + Json.RecordOrEmpty(devDeps)
  }

  /** Whether `eslint` is declared with a string version in the merged
      dependency maps; `devDependencies` decides whenever it names `eslint`. */
  function HasEslintDependency(packageJson: Option<Json.Value>): (r: bool)
    ensures r <==>
              if Declared(packageJson, "devDependencies", "eslint").Some? then
                Declared(packageJson, "devDependencies", "eslint").value.Str?
              else
                Declared(packageJson, "dependencies", "eslint").Some? &&
                Declared(packageJson, "dependencies", "eslint").value.Str?
  {
    if !Json.Truthy(packageJson) then false
    else
      var merged := MergedDependencies(packageJson.value);
      Json.TypeOf(if "eslint" in merged then Some(merged["eslint"]) else None) == "string"
  }

  const CONFIG_NOT_FOUND := Finding(RULE_ID, Warning, "ESLint config not found",
    "No eslint.config.* or .eslintrc.* file was detected at repository root.", None)
  const DEPENDENCY_MISSING := Finding(RULE_ID, Warning, "ESLint dependency not declared",
    "Add eslint to dependencies/devDependencies to keep linting reproducible in CI.", Some(["package.json"]))
  const SCRIPT_MISSING := Finding(RULE_ID, Warning, "lint script is missing",
    "Add a lint script in package.json to standardize local and CI usage.", Some(["package.json"]))
  const BASELINE_OK := Finding(RULE_ID, Ok, "ESLint coverage baseline looks good",
    "Configuration, dependency, and script wiring are present.", Some(["package.json"]))

  function ConfigDetected(configFile: string): Finding {
    Finding(RULE_ID, Ok, "ESLint config detected",
      "Using " + configFile + " as baseline lint configuration.", Some([configFile]))
  }

  function ScriptWithoutEslint(script: string): Finding {
    Finding(RULE_ID, Info, "lint script does not call eslint",
      "Current lint script: \"" + script + "\". If intentional, keep this message as informational.",
      Some(["package.json"]))
  }

  predicate AllOk(fs: seq<Finding>) {
    forall i :: 0 <= i < |fs| ==> fs[i].severity == Ok
  }

  /** The first sub-check: which configuration file, if any, was found. The
      rule tests the found name for truthiness; since no candidate is empty
      (`ConfigNamesNonEmpty`), that is the same as testing whether one was found. */
  function ConfigCheck(context: ScanContext): (r: Finding)
    ensures r.ruleId == RULE_ID
    ensures r.severity == Ok <==> HasAnyFile(context, ESLINT_CONFIG_FILES).Some?
    ensures HasAnyFile(context, ESLINT_CONFIG_FILES).Some? ==>
              r.severity == Ok && r.files == Some([HasAnyFile(context, ESLINT_CONFIG_FILES).value])
    ensures HasAnyFile(context, ESLINT_CONFIG_FILES).None? ==>
              r.severity == Warning && r.title == "ESLint config not found" && r.files == None
  {
    match HasAnyFile(context, ESLINT_CONFIG_FILES)
    case None => CONFIG_NOT_FOUND
    case Some(configFile) => ConfigDetected(configFile)
  }

  /** The third sub-check: a missing or empty `lint` script is a warning, one
      that never mentions `eslint` is informational. */
  function LintScriptCheck(packageJson: Option<Json.Value>): (r: seq<Finding>)
    ensures |r| <= 1
    ensures r == [SCRIPT_MISSING] <==>
              GetScript(packageJson, "lint").None? || GetScript(packageJson, "lint").value == ""
    ensures GetScript(packageJson, "lint").Some? && GetScript(packageJson, "lint").value != "" &&
            !(exists i :: Strings.OccursAt(GetScript(packageJson, "lint").value, "eslint", i)) ==>
              r == [ScriptWithoutEslint(GetScript(packageJson, "lint").value)]
    ensures r == [] <==>
              GetScript(packageJson, "lint").Some? && GetScript(packageJson, "lint").value != "" &&
              exists i :: Strings.OccursAt(GetScript(packageJson, "lint").value, "eslint", i)
    ensures forall i :: 0 <= i < |r| ==> r[i].ruleId == RULE_ID && r[i].severity != Ok
  {
    var lintScript := GetScript(packageJson, "lint");
    if !Json.TruthyString(lintScript) then [SCRIPT_MISSING]
    else
      Strings.ContainsIffOccurs(lintScript.value, "eslint");
      if !Strings.Contains(lintScript.value, "eslint") then [ScriptWithoutEslint(lintScript.value)]
      else []
  }

  /** Appends the rollup `ok` finding when every finding so far is `ok`. */
  function Rollup(findings: seq<Finding>): seq<Finding> {
    if AllOk(findings) then findings + [BASELINE_OK] else findings
  }

  /** The shape of the rule's result given its three sub-check outcomes: the
      rollup is appended exactly when the config check passed and the other
      two reported nothing. */
  lemma RollupShape(first: Finding, dependency: seq<Finding>, script: seq<Finding>)
    requires |dependency| <= 1 && |script| <= 1
    requires forall i :: 0 <= i < |dependency| ==> dependency[i].severity != Ok
    requires forall i :: 0 <= i < |script| ==> script[i].severity != Ok
    requires first.ruleId == RULE_ID
    requires forall i :: 0 <= i < |dependency| ==> dependency[i].ruleId == RULE_ID
    requires forall i :: 0 <= i < |script| ==> script[i].ruleId == RULE_ID
    ensures var r := Rollup([first] + dependency + script);
            forall i :: 0 <= i < |r| ==> r[i].ruleId == RULE_ID
    ensures var r := Rollup([first] + dependency + script);
            && 1 <= |r| <= 3
            && r[0] == first
            && (r[|r| - 1] == BASELINE_OK <==> AllOk(r))
            && (AllOk(r) ==> |r| == 2)
            && (AllOk(r) <==> first.severity == Ok && dependency == [] && script == [])
  {
    var fs := [first] + dependency + script;
    assert |dependency| == 1 ==> fs[1] == dependency[0];
    assert |script| == 1 ==> fs[1 + |dependency|] == script[0];
    if AllOk(fs) {
      assert fs == [first];
      assert Rollup(fs)[..1] == fs;
    } else {
      assert fs[|fs| - 1].severity != Ok || |fs| == 1;
      assert !AllOk(Rollup(fs));
    }
  }

  /** The rollup only ever appends `BASELINE_OK` after the findings it inspects. */
  lemma RollupExtends(findings: seq<Finding>)
    ensures var r := Rollup(findings);
            |findings| <= |r| && r[..|findings|] == findings &&
            (|r| == |findings| || r[|findings|..] == [BASELINE_OK])
  {
  }

  /** The rule's result from its three sub-check outcomes: the config
      finding, the dependency warning when `eslint` is not declared, the
      lint-script finding if any, and the rollup when all of them are `ok`. */
  function Assemble(first: Finding, declared: bool, script: seq<Finding>): (r: seq<Finding>)
    requires first.ruleId == RULE_ID
    requires |script| <= 1
    requires forall i :: 0 <= i < |script| ==> script[i].ruleId == RULE_ID && script[i].severity != Ok
    ensures 1 <= |r| <= 3
    ensures forall i :: 0 <= i < |r| ==> r[i].ruleId == RULE_ID
    ensures r[0] == first
    ensures (r[|r| - 1] == BASELINE_OK) <==> AllOk(r)
    ensures AllOk(r) ==> |r| == 2
    ensures AllOk(r) <==> first.severity == Ok && declared && script == []
  {
    var dependency := if !declared then [DEPENDENCY_MISSING] else [];
    RollupShape(first, dependency, script);
    Rollup([first] + dependency + script)
  }

  /** The rule: the three sub-checks' findings in order, then the rollup `ok`
      when every one of them is `ok`. */
  function CheckEslintCoverage(context: ScanContext): (r: seq<Finding>)
    ensures 1 <= |r| <= 3
    ensures forall i :: 0 <= i < |r| ==> r[i].ruleId == RULE_ID
    ensures r[0] == ConfigCheck(context)
    ensures (r[|r| - 1] == BASELINE_OK) <==> AllOk(r)
    ensures AllOk(r) ==> |r| == 2
    ensures AllOk(r) <==>
              HasAnyFile(context, ESLINT_CONFIG_FILES).Some? &&
              HasEslintDependency(context.packageJson) &&
              LintScriptCheck(context.packageJson) == []
  {
    Assemble(ConfigCheck(context), HasEslintDependency(context.packageJson),
             LintScriptCheck(context.packageJson))
  }

  /** The sub-checks report in a fixed order: the config check, then the
      dependency check, then the lint-script check; the only other finding
      is the rollup at the end. */
  lemma SubCheckOrder(context: ScanContext)
    ensures var r := CheckEslintCoverage(context);
            var dependency := if HasEslintDependency(context.packageJson) then [] else [DEPENDENCY_MISSING];
            var prefix := [ConfigCheck(context)] + dependency + LintScriptCheck(context.packageJson);
            |prefix| <= |r| && r[..|prefix|] == prefix &&
            (|r| == |prefix| || r[|prefix|..] == [BASELINE_OK])
  {
    var declared := HasEslintDependency(context.packageJson);
    var dependency := if declared then [] else [DEPENDENCY_MISSING];
    var prefix := [ConfigCheck(context)] + dependency + LintScriptCheck(context.packageJson);
    assert CheckEslintCoverage(context) == Rollup(prefix);
    RollupExtends(prefix);
  }

  /** Within the assembled result, the dependency warning appears exactly when
      `eslint` is not declared, provided no other sub-check produced it. */
  lemma AssembleDependency(first: Finding, declared: bool, script: seq<Finding>)
    requires first.ruleId == RULE_ID
    requires |script| <= 1
    requires forall i :: 0 <= i < |script| ==> script[i].ruleId == RULE_ID && script[i].severity != Ok
    requires first != DEPENDENCY_MISSING && DEPENDENCY_MISSING !in script
    ensures DEPENDENCY_MISSING in Assemble(first, declared, script) <==> !declared
  {
    var dependency := if !declared then [DEPENDENCY_MISSING] else [];
    var prefix := [first] + dependency + script;
    RollupExtends(prefix);
    if !declared {
      assert prefix[1] == DEPENDENCY_MISSING;
    } else {
      assert prefix == [first] + script;
    }
  }

  /** Neither the config check nor the lint-script check produces the
      dependency warning. */
  lemma OnlyDependencyCheckWarnsDependency(context: ScanContext)
    ensures ConfigCheck(context) != DEPENDENCY_MISSING
    ensures DEPENDENCY_MISSING !in LintScriptCheck(context.packageJson)
  {
    var script := LintScriptCheck(context.packageJson);
    assert ConfigCheck(context).title != DEPENDENCY_MISSING.title;
    if |script| == 1 {
      assert script[0].title != DEPENDENCY_MISSING.title;
    }
  }

  /** The dependency warning is reported exactly when `eslint` is not declared. */
  lemma DependencyWarningIffUndeclared(context: ScanContext)
    ensures DEPENDENCY_MISSING in CheckEslintCoverage(context) <==> !HasEslintDependency(context.packageJson)
  {
    OnlyDependencyCheckWarnsDependency(context);
    AssembleDependency(ConfigCheck(context), HasEslintDependency(context.packageJson),
                       LintScriptCheck(context.packageJson));
  }

  /** A lint script that calls eslint produces no lint-script finding. */
  lemma CallingScriptIsSilent(packageJson: Option<Json.Value>)
    requires GetScript(packageJson, "lint").Some?
    requires Strings.Contains(GetScript(packageJson, "lint").value, "eslint")
    ensures LintScriptCheck(packageJson) == []
  {
    var script := GetScript(packageJson, "lint").value;
    Strings.ContainsIffOccurs(script, "eslint");
    var i :| Strings.OccursAt(script, "eslint", i);
    assert script != "";
  }

  /** A passing config check with nothing else reported gets the rollup. */
  lemma OkConfigGetsRollup(first: Finding)
    requires first.ruleId == RULE_ID && first.severity == Ok
    ensures Assemble(first, true, []) == [first, BASELINE_OK]
  {
    assert AllOk([first] + [] + []);
  }

  /** A healthy repository (a config file, `eslint` declared, a lint script
      that calls it) yields exactly two `ok` findings: the config confirmation
      and the rollup. */
  lemma HealthyYieldsTwoOk(context: ScanContext)
    requires HasAnyFile(context, ESLINT_CONFIG_FILES).Some?
    requires HasEslintDependency(context.packageJson)
    requires GetScript(context.packageJson, "lint").Some?
    requires Strings.Contains(GetScript(context.packageJson, "lint").value, "eslint")
    ensures CheckEslintCoverage(context) ==
              [ConfigDetected(HasAnyFile(context, ESLINT_CONFIG_FILES).value), BASELINE_OK]
  {
    CallingScriptIsSilent(context.packageJson);
    OkConfigGetsRollup(ConfigCheck(context));
  }

  /** An empty repository with no manifest gets the three warnings and no rollup. */
  lemma EmptyRepositoryWarnings(targetPath: string)
    ensures CheckEslintCoverage(ScanContext(targetPath, {}, None)) ==
              [CONFIG_NOT_FOUND, DEPENDENCY_MISSING, SCRIPT_MISSING]
  {
    var context := ScanContext(targetPath, {}, None);
    assert ConfigCheck(context) == CONFIG_NOT_FOUND;
    assert !HasEslintDependency(None);
    assert LintScriptCheck(None) == [SCRIPT_MISSING];
    ThreeWarnings();
  }

  /** Three warnings are reported as they are, without a rollup. */
  lemma ThreeWarnings()
    ensures Assemble(CONFIG_NOT_FOUND, false, [SCRIPT_MISSING]) ==
              [CONFIG_NOT_FOUND, DEPENDENCY_MISSING, SCRIPT_MISSING]
  {
    var prefix := [CONFIG_NOT_FOUND] + [DEPENDENCY_MISSING] + [SCRIPT_MISSING];
    assert prefix[0].severity != Ok;
    assert prefix == [CONFIG_NOT_FOUND, DEPENDENCY_MISSING, SCRIPT_MISSING];
  }

  /** A repository with `eslint.config.js`, `eslint` in `devDependencies` and
      `"lint": "eslint ."` has no warning and reports the baseline. */
  lemma HealthyExample(targetPath: string)
    ensures var r := CheckEslintCoverage(ScanContext(targetPath, {"eslint.config.js"}, Some(Json.Object(map[
              "devDependencies" := Json.Object(map["eslint" := Json.Str("^8.0.0")]),
              "scripts" := Json.Object(map["lint" := Json.Str("eslint .")])]))));
            r == [ConfigDetected("eslint.config.js"), BASELINE_OK]
  {
    var context := ScanContext(targetPath, {"eslint.config.js"}, Some(Json.Object(map[
              "devDependencies" := Json.Object(map["eslint" := Json.Str("^8.0.0")]),
              "scripts" := Json.Object(map["lint" := Json.Str("eslint .")])])));
    assert ESLINT_CONFIG_FILES[0] == "eslint.config.js";
    assert Strings.OccursAt("eslint .", "eslint", 0);
    Strings.ContainsIffOccurs("eslint .", "eslint");
    HealthyYieldsTwoOk(context);
  }
}
