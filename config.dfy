/** Experiment configuration (experiment_config.py): the defaults, the
    section-wise merge of loaded data over them, the export back to data,
    validation, and the environment overrides applied before loading.

    Loaded YAML data is a dynamic `Value`; Python's `bool` is a subclass of
    `int`, so `isinstance(True, int)` holds and `True` counts as 1. */
module Config {
  import opened Wrappers
  import opened Text

  // ---------------------------------------------------------------------
  // Dynamic values
  // ---------------------------------------------------------------------

  datatype Value =
    | Null
    | Bool(b: bool)
    | Int(i: int)
    | Float(r: real)
    | Str(s: string)
    | List(items: seq<Value>)
    | Dict(entries: map<string, Value>)

  type Section = map<string, Value>

  /** `bool(v)`. */
  predicate Truthy(v: Value)
  {
    match v
    case Null => false
    case Bool(b) => b
    case Int(i) => i != 0
    case Float(r) => r != 0.0
    case Str(s) => s != []
    case List(items) => items != []
    case Dict(entries) => entries != map[]
  }

  /** `isinstance(v, int)`: true of booleans as well. */
  predicate IsInt(v: Value)
  {
    v.Int? || v.Bool?
  }

  function IntOf(v: Value): int
    requires IsInt(v)
  {
    if v.Bool? then (if v.b then 1 else 0) else v.i
  }

  /** `section.get(key)`. */
  function Get(section: Section, key: string): Value
  {
    if key in section then section[key] else Null
  }

  /** Whether `v` equals one of the given strings. */
  predicate OneOf(v: Value, choices: seq<string>)
  {
    v.Str? && v.s in choices
  }

  // ---------------------------------------------------------------------
  // The configuration and its defaults
  // ---------------------------------------------------------------------

  datatype GenerationConfig = GenerationConfig(single: Section, collab: Section, competitive: Section)

  datatype EvaluationConfig = EvaluationConfig(pytest: Section, coverage: Section, diversity: Section)

  datatype ExperimentConfig = ExperimentConfig(
    experiment: Section,
    cutModule: Value,
    numTests: Value,
    generation: GenerationConfig,
    evaluation: EvaluationConfig,
    aggregation: Section,
    output: Section,
    logging: Section)

  const DefaultGeneration := GenerationConfig(
    map["enabled" := Bool(true), "num_tests" := Int(10)],
    map["enabled" := Bool(true), "num_agents" := Int(3), "num_tests" := Int(10)],
    map["enabled" := Bool(true), "num_agents" := Int(2), "num_tests" := Int(10),
        "competition_mode" := Str("adversarial")])

  const DefaultEvaluation := EvaluationConfig(
    map["enabled" := Bool(true), "verbose" := Bool(false)],
    map["enabled" := Bool(true), "report_format" := Str("json")],
    map["enabled" := Bool(true), "metric" := Str("syntactic")])

  /** `ExperimentConfig()`. */
  const Default := ExperimentConfig(
    map["id" := Null, "name" := Str("Step 10 Experiment"),
        "description" := Str("Compare single/collab/competitive test generation")],
    Str("humaneval_subset"),
    Int(10),
    DefaultGeneration,
    DefaultEvaluation,
    map["enabled" := Bool(true), "formats" := List([Str("csv"), Str("html")])],
    map["base_dir" := Str("results/experiments"), "create_timestamped_dirs" := Bool(true)],
    map["level" := Str("INFO"), "file" := Bool(true), "console" := Bool(true), "format" := Str("detailed")])

  // ---------------------------------------------------------------------
  // from_dict and to_dict
  // ---------------------------------------------------------------------

  /** A section or field that is not a dictionary where one is needed. */
  datatype ConfigError = TypeError(path: string)

  /** A value `dict.update` iterates without finding an element: the empty
      string and the empty list. */
  predicate EmptyIterable(v: Value)
  {
    v == Str([]) || v == List([])
  }

  /** `dict.update(update)`: the update's keys win, the others stay. An
      empty string or list adds nothing; any other value that is not a
      dictionary raises. */
  function Merge(section: Section, update: Value, path: string): (r: Result<Section, ConfigError>)
    ensures update.Dict? ==> r == Success(section + update.entries)
    ensures EmptyIterable(update) ==> r == Success(section)
    ensures r.Failure? <==> !update.Dict? && !EmptyIterable(update)
  {
    if update.Dict? then Success(section + update.entries)
    else if EmptyIterable(update) then Success(section)
    else Failure(TypeError(path))
  }

  /** `key in container` followed by `container[key]`: a dictionary looks the
      key up; a string (substring test) or a list (element test) that holds
      it cannot be subscripted by it; any other value rejects `in`. */
  function Lookup(container: Value, key: string, path: string): (r: Result<Option<Value>, ConfigError>)
    ensures container.Dict? ==> r == Success(if key in container.entries then Some(container.entries[key]) else None)
  {
    match container
    case Dict(entries) => Success(if key in entries then Some(entries[key]) else None)
    case Str(s) => if Contains(s, key) then Failure(TypeError(path)) else Success(None)
    case List(items) => if Str(key) in items then Failure(TypeError(path)) else Success(None)
    case _ => Failure(TypeError(path))
  }

  /** Merges one nested section if the container names it. */
  function MergeNested(section: Section, container: Value, key: string, path: string): Result<Section, ConfigError>
  {
    match Lookup(container, key, path)
    case Failure(e) => Failure(e)
    case Success(None) => Success(section)
    case Success(Some(update)) => Merge(section, update, path + "." + key)
  }

  /** The top-level keys `from_dict` looks at, in the order it does. */
  datatype TopKey = ExperimentKey | CutModuleKey | NumTestsKey | GenerationKey | EvaluationKey
                  | AggregationKey | OutputKey | LoggingKey

  function KeyName(k: TopKey): string
  {
    match k
    case ExperimentKey => "experiment"
    case CutModuleKey => "cut_module"
    case NumTestsKey => "num_tests"
    case GenerationKey => "generation"
    case EvaluationKey => "evaluation"
    case AggregationKey => "aggregation"
    case OutputKey => "output"
    case LoggingKey => "logging"
  }

  const KeyOrder := [ExperimentKey, CutModuleKey, NumTestsKey, GenerationKey, EvaluationKey,
                     AggregationKey, OutputKey, LoggingKey]

  /** The update of one top-level key, if the data has it. */
  function UpdateKey(c: ExperimentConfig, data: map<string, Value>, k: TopKey): Result<ExperimentConfig, ConfigError>
  {
    var name := KeyName(k);
    if name !in data then Success(c)
    else
      var v := data[name];
      match k
      case CutModuleKey => Success(c.(cutModule := v))
      case NumTestsKey => Success(c.(numTests := v))
      case GenerationKey =>
        (match MergeGeneration(c.generation, v)
         case Failure(e) => Failure(e)
         case Success(g) => Success(c.(generation := g)))
      case EvaluationKey =>
        (match MergeEvaluation(c.evaluation, v)
         case Failure(e) => Failure(e)
         case Success(e) => Success(c.(evaluation := e)))
      case ExperimentKey =>
        (match Merge(c.experiment, v, name)
         case Failure(e) => Failure(e)
         case Success(m) => Success(c.(experiment := m)))
      case AggregationKey =>
        (match Merge(c.aggregation, v, name)
         case Failure(e) => Failure(e)
         case Success(m) => Success(c.(aggregation := m)))
      case OutputKey =>
        (match Merge(c.output, v, name)
         case Failure(e) => Failure(e)
         case Success(m) => Success(c.(output := m)))
      case LoggingKey =>
        (match Merge(c.logging, v, name)
         case Failure(e) => Failure(e)
         case Success(m) => Success(c.(logging := m)))
  }

  /** One more key's update; a failure stops the updates. */
  function Then(r: Result<ExperimentConfig, ConfigError>, data: map<string, Value>, k: TopKey): Result<ExperimentConfig, ConfigError>
  {
    if r.Failure? then r else UpdateKey(r.value, data, k)
  }

  /** The configuration after the updates of the first n keys. */
  function Upto(data: map<string, Value>, n: nat): Result<ExperimentConfig, ConfigError>
    requires n <= |KeyOrder|
  {
    if n == 0 then Success(Default) else Then(Upto(data, n - 1), data, KeyOrder[n - 1])
  }

  /** The configuration `from_dict(data)` builds over the defaults. */
  function FromData(data: map<string, Value>): Result<ExperimentConfig, ConfigError>
  {
    Upto(data, |KeyOrder|)
  }

  /** The first failure is the result. */
  lemma {:induction false} FailureStops(data: map<string, Value>, n: nat, m: nat)
    requires n <= m <= |KeyOrder| && Upto(data, n).Failure?
    ensures Upto(data, m) == Upto(data, n)
  {
    if m > n {
      FailureStops(data, n, m - 1);
    }
  }

  function MergeGeneration(g: GenerationConfig, genData: Value): Result<GenerationConfig, ConfigError>
  {
    var single := MergeNested(g.single, genData, "single", "generation");
    if single.Failure? then Failure(single.error) else
    var collab := MergeNested(g.collab, genData, "collab", "generation");
    if collab.Failure? then Failure(collab.error) else
    var competitive := MergeNested(g.competitive, genData, "competitive", "generation");
    if competitive.Failure? then Failure(competitive.error) else
    Success(GenerationConfig(single.value, collab.value, competitive.value))
  }

  /** Any "mutation" entry is not looked at. */
  function MergeEvaluation(e: EvaluationConfig, evalData: Value): Result<EvaluationConfig, ConfigError>
  {
    var pytest := MergeNested(e.pytest, evalData, "pytest", "evaluation");
    if pytest.Failure? then Failure(pytest.error) else
    var coverage := MergeNested(e.coverage, evalData, "coverage", "evaluation");
    if coverage.Failure? then Failure(coverage.error) else
    var diversity := MergeNested(e.diversity, evalData, "diversity", "evaluation");
    if diversity.Failure? then Failure(diversity.error) else
    Success(EvaluationConfig(pytest.value, coverage.value, diversity.value))
  }

  /** `ExperimentConfig.from_dict(data)`: start from the defaults and update
      each section the data names, in the order of `KeyOrder`. */
  method FromDict(data: map<string, Value>) returns (r: Result<ExperimentConfig, ConfigError>)
    ensures r == FromData(data)
  {
    var config := Default;
    for n := 0 to |KeyOrder|
      invariant Upto(data, n) == Success(config)
    {
      var updated := UpdateSection(config, data, KeyOrder[n]);
      if updated.Failure? {
        FailureStops(data, n + 1, |KeyOrder|);
        return Failure(updated.error);
      }
      config := updated.value;
    }
    return Success(config);
  }

  /** One block of `from_dict`: the update of one top-level key. */
  method UpdateSection(config: ExperimentConfig, data: map<string, Value>, k: TopKey)
    returns (r: Result<ExperimentConfig, ConfigError>)
    ensures r == UpdateKey(config, data, k)
  {
    var name := KeyName(k);
    if name !in data {
      return Success(config);
    }
    match k
    case CutModuleKey =>
      r := Success(config.(cutModule := data[name]));
    case NumTestsKey =>
      r := Success(config.(numTests := data[name]));
    case GenerationKey =>
      var merged := MergeGeneration(config.generation, data[name]);
      r := if merged.Failure? then Failure(merged.error) else Success(config.(generation := merged.value));
    case EvaluationKey =>
      var merged := MergeEvaluation(config.evaluation, data[name]);
      r := if merged.Failure? then Failure(merged.error) else Success(config.(evaluation := merged.value));
    case ExperimentKey =>
      var merged := Merge(config.experiment, data[name], name);
      r := if merged.Failure? then Failure(merged.error) else Success(config.(experiment := merged.value));
    case AggregationKey =>
      var merged := Merge(config.aggregation, data[name], name);
      r := if merged.Failure? then Failure(merged.error) else Success(config.(aggregation := merged.value));
    case OutputKey =>
      var merged := Merge(config.output, data[name], name);
      r := if merged.Failure? then Failure(merged.error) else Success(config.(output := merged.value));
    case LoggingKey =>
      var merged := Merge(config.logging, data[name], name);
      r := if merged.Failure? then Failure(merged.error) else Success(config.(logging := merged.value));
  }

  const TopLevelKeys := {"experiment", "cut_module", "num_tests", "generation", "evaluation",
                         "aggregation", "output", "logging"}

  /** `config.to_dict()`. */
  function ToDict(c: ExperimentConfig): (d: map<string, Value>)
    ensures d.Keys == TopLevelKeys
    ensures d["generation"].Dict? && d["generation"].entries.Keys == {"single", "collab", "competitive"}
    ensures d["evaluation"].Dict? && d["evaluation"].entries.Keys == {"pytest", "coverage", "diversity"}
  {
    map["experiment" := Dict(c.experiment),
        "cut_module" := c.cutModule,
        "num_tests" := c.numTests,
        "generation" := Dict(GenerationDict(c.generation)),
        "evaluation" := Dict(EvaluationDict(c.evaluation)),
        "aggregation" := Dict(c.aggregation),
        "output" := Dict(c.output),
        "logging" := Dict(c.logging)]
  }

  function GenerationDict(g: GenerationConfig): (d: map<string, Value>)
    ensures d.Keys == {"single", "collab", "competitive"}
  {
    map["single" := Dict(g.single), "collab" := Dict(g.collab), "competitive" := Dict(g.competitive)]
  }

  function EvaluationDict(e: EvaluationConfig): (d: map<string, Value>)
    ensures d.Keys == {"pytest", "coverage", "diversity"}
  {
    map["pytest" := Dict(e.pytest), "coverage" := Dict(e.coverage), "diversity" := Dict(e.diversity)]
  }

  // ---------------------------------------------------------------------
  // Validation
  // ---------------------------------------------------------------------

  datatype Issue =
    | BadCutModule
    | BadNumTests
    | ModeEnabledNotBool(mode: string)
    | ModeNumTestsNotInt(mode: string)
    | BadNumAgents
    | BadCompetitionMode
    | EvaluationEnabledNotBool(phase: string)
    | BadDiversityMetric
    | BadLoggingLevel

  /** The message `validate` reports for each issue. */
  function IssueText(issue: Issue): string
  {
    match issue
    case BadCutModule => "cut_module must be a non-empty string"
    case BadNumTests => "num_tests must be a positive integer"
    case ModeEnabledNotBool(m) => "generation." + m + ".enabled must be a boolean"
    case ModeNumTestsNotInt(m) => "generation." + m + ".num_tests must be an integer"
    case BadNumAgents => "generation.collab.num_agents must be a positive integer"
    case BadCompetitionMode => "generation.competitive.competition_mode must be one of: adversarial, diversity, coverage"
    case EvaluationEnabledNotBool(p) => "evaluation." + p + ".enabled must be a boolean"
    case BadDiversityMetric => "evaluation.diversity.metric must be one of: syntactic, semantic, coverage"
    case BadLoggingLevel => "logging.level must be one of: DEBUG, INFO, WARNING, ERROR"
  }

  const CompetitionModes := ["adversarial", "diversity", "coverage"]
  const DiversityMetrics := ["syntactic", "semantic", "coverage"]
  const LoggingLevels := ["DEBUG", "INFO", "WARNING", "ERROR"]

  /** The generation modes in the order they are checked. */
  function Modes(c: ExperimentConfig): seq<(string, Section)>
  {
    [("single", c.generation.single), ("collab", c.generation.collab), ("competitive", c.generation.competitive)]
  }

  /** The evaluation phases in the order they are checked. */
  function Phases(c: ExperimentConfig): seq<(string, Section)>
  {
    [("pytest", c.evaluation.pytest), ("coverage", c.evaluation.coverage), ("diversity", c.evaluation.diversity)]
  }

  function ModeIssues(mode: string, section: Section): seq<Issue>
  {
    (if Get(section, "enabled").Bool? then [] else [ModeEnabledNotBool(mode)])
    + (if Truthy(Get(section, "enabled")) && !IsInt(Get(section, "num_tests")) then [ModeNumTestsNotInt(mode)] else [])
  }

  function ModesIssues(modes: seq<(string, Section)>): seq<Issue>
  {
    if modes == [] then [] else ModesIssues(modes[..|modes| - 1]) + ModeIssues(modes[|modes| - 1].0, modes[|modes| - 1].1)
  }

  function PhasesIssues(phases: seq<(string, Section)>): seq<Issue>
  {
    if phases == [] then []
    else PhasesIssues(phases[..|phases| - 1])
         + (if Get(phases[|phases| - 1].1, "enabled").Bool? then [] else [EvaluationEnabledNotBool(phases[|phases| - 1].0)])
  }

  predicate CutModuleOk(c: ExperimentConfig)
  {
    c.cutModule.Str? && c.cutModule.s != []
  }

  predicate NumTestsOk(c: ExperimentConfig)
  {
    IsInt(c.numTests) && IntOf(c.numTests) >= 1
  }

  predicate NumAgentsOk(c: ExperimentConfig)
  {
    var agents := Get(c.generation.collab, "num_agents");
    !Truthy(Get(c.generation.collab, "enabled")) || (IsInt(agents) && IntOf(agents) >= 1)
  }

  predicate CompetitionModeOk(c: ExperimentConfig)
  {
    !Truthy(Get(c.generation.competitive, "enabled")) || OneOf(Get(c.generation.competitive, "competition_mode"), CompetitionModes)
  }

  predicate DiversityMetricOk(c: ExperimentConfig)
  {
    !Truthy(Get(c.evaluation.diversity, "enabled")) || OneOf(Get(c.evaluation.diversity, "metric"), DiversityMetrics)
  }

  predicate LoggingLevelOk(c: ExperimentConfig)
  {
    OneOf(Get(c.logging, "level"), LoggingLevels)
  }

  function FieldIssues(c: ExperimentConfig): seq<Issue>
  {
    (if CutModuleOk(c) then [] else [BadCutModule]) + (if NumTestsOk(c) then [] else [BadNumTests])
  }

  function GenerationIssues(c: ExperimentConfig): seq<Issue>
  {
    (if NumAgentsOk(c) then [] else [BadNumAgents]) + (if CompetitionModeOk(c) then [] else [BadCompetitionMode])
  }

  function TailIssues(c: ExperimentConfig): seq<Issue>
  {
    (if DiversityMetricOk(c) then [] else [BadDiversityMetric]) + (if LoggingLevelOk(c) then [] else [BadLoggingLevel])
  }

  /** The issues `validate` reports, in order. */
  function Issues(c: ExperimentConfig): seq<Issue>
  {
    FieldIssues(c) + ModesIssues(Modes(c)) + GenerationIssues(c) + PhasesIssues(Phases(c)) + TailIssues(c)
  }

  /** `config.validate()`. */
  method Validate(c: ExperimentConfig) returns (errors: seq<Issue>)
    ensures errors == Issues(c)
  {
    errors := CheckFields(c);
    var modeErrors := CheckModes(Modes(c));
    errors := errors + modeErrors;
    var generationErrors := CheckGeneration(c);
    errors := errors + generationErrors;
    var phaseErrors := CheckPhases(Phases(c));
    errors := errors + phaseErrors;
    var tailErrors := CheckTail(c);
    errors := errors + tailErrors;
  }

  /** The checks of `cut_module` and `num_tests`. */
  method CheckFields(c: ExperimentConfig) returns (errors: seq<Issue>)
    ensures errors == FieldIssues(c)
  {
    errors := [];
    if !(c.cutModule.Str? && c.cutModule.s != []) {
      errors := errors + [BadCutModule];
    }
    if !IsInt(c.numTests) || IntOf(c.numTests) < 1 {
      errors := errors + [BadNumTests];
    }
  }

  /** The checks of the collab `num_agents` and the competitive `competition_mode`. */
  method CheckGeneration(c: ExperimentConfig) returns (errors: seq<Issue>)
    ensures errors == GenerationIssues(c)
  {
    errors := [];
    if Truthy(Get(c.generation.collab, "enabled")) {
      var numAgents := Get(c.generation.collab, "num_agents");
      if !IsInt(numAgents) || IntOf(numAgents) < 1 {
        errors := errors + [BadNumAgents];
      }
    }
    if Truthy(Get(c.generation.competitive, "enabled")) {
      var mode := Get(c.generation.competitive, "competition_mode");
      if !OneOf(mode, CompetitionModes) {
        errors := errors + [BadCompetitionMode];
      }
    }
  }

  /** The checks of the diversity `metric` and the logging `level`. */
  method CheckTail(c: ExperimentConfig) returns (errors: seq<Issue>)
    ensures errors == TailIssues(c)
  {
    errors := [];
    if Truthy(Get(c.evaluation.diversity, "enabled")) {
      var metric := Get(c.evaluation.diversity, "metric");
      if !OneOf(metric, DiversityMetrics) {
        errors := errors + [BadDiversityMetric];
      }
    }
    if !OneOf(Get(c.logging, "level"), LoggingLevels) {
      errors := errors + [BadLoggingLevel];
    }
  }

  /** The loop over the generation modes. */
  method CheckModes(modes: seq<(string, Section)>) returns (errors: seq<Issue>)
    ensures errors == ModesIssues(modes)
  {
    errors := [];
    for k := 0 to |modes|
      invariant errors == ModesIssues(modes[..k])
    {
      assert modes[..k + 1][..k] == modes[..k];
      var (modeName, modeConfig) := modes[k];
      if !Get(modeConfig, "enabled").Bool? {
        errors := errors + [ModeEnabledNotBool(modeName)];
      }
      if Truthy(Get(modeConfig, "enabled")) && !IsInt(Get(modeConfig, "num_tests")) {
        errors := errors + [ModeNumTestsNotInt(modeName)];
      }
    }
    assert modes[..|modes|] == modes;
  }

  /** The loop over the evaluation phases. */
  method CheckPhases(phases: seq<(string, Section)>) returns (errors: seq<Issue>)
    ensures errors == PhasesIssues(phases)
  {
    errors := [];
    for k := 0 to |phases|
      invariant errors == PhasesIssues(phases[..k])
    {
      assert phases[..k + 1][..k] == phases[..k];
      var (evalName, evalConfig) := phases[k];
      if !Get(evalConfig, "enabled").Bool? {
        errors := errors + [EvaluationEnabledNotBool(evalName)];
      }
    }
    assert phases[..|phases|] == phases;
  }

  // ---------------------------------------------------------------------
  // Environment overrides and loading
  // ---------------------------------------------------------------------

  predicate IsDigit(c: char)
  {
    '0' <= c <= '9'
  }

  /** Digits with single underscores between them, as `int()` accepts. */
  predicate DigitGroups(s: string)
  {
    s != [] && IsDigit(s[0]) && IsDigit(s[|s| - 1])
    && (forall k :: 0 <= k < |s| ==> IsDigit(s[k]) || s[k] == '_')
    && (forall k :: 0 <= k < |s| - 1 ==> !(s[k] == '_' && s[k + 1] == '_'))
  }

  /** The value of a run of decimal digits, underscores skipped. */
  function DigitsValue(s: string): nat
  {
    if s == [] then 0
    else if IsDigit(s[|s| - 1]) then 10 * DigitsValue(s[..|s| - 1]) + (s[|s| - 1] as int - '0' as int)
    else DigitsValue(s[..|s| - 1])
  }

  /** `int(s)` over ASCII: surrounding whitespace, an optional sign, digit groups. */
  function ParseInt(s: string): Option<int>
  {
    var t := Strip(s);
    if t == [] then None
    else
      var negative := t[0] == '-';
      var body := if t[0] == '-' || t[0] == '+' then t[1..] else t;
      if DigitGroups(body) then Some(if negative then -(DigitsValue(body) as int) else DigitsValue(body) as int)
      else None
  }

  /** The environment variables that override loaded data. */
  const CutModuleVar := "EXPERIMENT_CUT_MODULE"
  const NumTestsVar := "EXPERIMENT_NUM_TESTS"
  const IdVar := "EXPERIMENT_ID"

  /** The data after the environment overrides. */
  function Overridden(data: map<string, Value>, env: map<string, string>): Result<map<string, Value>, ConfigError>
  {
    var d1 := if CutModuleVar in env then data["cut_module" := Str(env[CutModuleVar])] else data;
    var d2 := if NumTestsVar in env && ParseInt(env[NumTestsVar]).Some? then d1["num_tests" := Int(ParseInt(env[NumTestsVar]).value)] else d1;
    if IdVar !in env then Success(d2)
    else
      var experiment := if "experiment" in d2 then d2["experiment"] else Dict(map[]);
      if experiment.Dict? then Success(d2["experiment" := Dict(experiment.entries["id" := Str(env[IdVar])])])
      else Failure(TypeError("experiment"))
  }

  /** `_apply_env_overrides(data)` with the environment given as a map. */
  method ApplyEnvOverrides(data: map<string, Value>, env: map<string, string>) returns (r: Result<map<string, Value>, ConfigError>)
    ensures r == Overridden(data, env)
  {
    var d := data;
    if CutModuleVar in env {
      d := d["cut_module" := Str(env[CutModuleVar])];
    }
    if NumTestsVar in env {
      var parsed := ParseInt(env[NumTestsVar]);
      if parsed.Some? {
        d := d["num_tests" := Int(parsed.value)];
      }
    }
    ghost var d1 := d;
    if IdVar in env {
      if "experiment" !in d {
        d := d["experiment" := Dict(map[])];
      }
      var experiment := d["experiment"];
      if !experiment.Dict? {
        return Failure(TypeError("experiment"));
      }
      d := d["experiment" := Dict(experiment.entries["id" := Str(env[IdVar])])];
      assert "experiment" !in d1 ==> d == d1["experiment" := Dict(experiment.entries["id" := Str(env[IdVar])])];
    }
    return Success(d);
  }

  /** Where the configuration comes from: no path, a missing file, a file
      that is not YAML, or the data a file holds (None for an empty file). */
  datatype ConfigSource = NoPath | MissingFile(path: string) | InvalidYaml(message: string) | Loaded(data: Option<map<string, Value>>)

  datatype LoadError =
    | FileNotFound(message: string)
    | ValueError(message: string)
    | BadShape(error: ConfigError)

  /** The message of a failed validation. */
  function ValidationMessage(issues: seq<Issue>): string
  {
    "Configuration validation failed:\n" + Join(IssueLines(issues), "\n")
  }

  function IssueLines(issues: seq<Issue>): (lines: seq<string>)
    ensures |lines| == |issues|
  {
    seq(|issues|, k requires 0 <= k < |issues| => "  - " + IssueText(issues[k]))
  }

  /** The outcome of `load_config`. */
  function Loading(source: ConfigSource, env: map<string, string>): Result<ExperimentConfig, LoadError>
  {
    match source
    case NoPath => Success(Default)
    case MissingFile(path) => Failure(FileNotFound("Configuration file not found: " + path))
    case InvalidYaml(message) => Failure(ValueError("Invalid YAML in configuration file: " + message))
    case Loaded(data) =>
      var d := if data.Some? then data.value else map[];
      match Overridden(d, env)
      case Failure(e) => Failure(BadShape(e))
      case Success(overridden) =>
        match FromData(overridden)
        case Failure(e) => Failure(BadShape(e))
        case Success(config) =>
          if Issues(config) != [] then Failure(ValueError(ValidationMessage(Issues(config)))) else Success(config)
  }

  /** `load_config(path)`, with the file's contents given. */
  method LoadConfig(source: ConfigSource, env: map<string, string>) returns (r: Result<ExperimentConfig, LoadError>)
    ensures r == Loading(source, env)
  {
    match source {
      case NoPath =>
        return Success(Default);
      case MissingFile(path) =>
        return Failure(FileNotFound("Configuration file not found: " + path));
      case InvalidYaml(message) =>
        return Failure(ValueError("Invalid YAML in configuration file: " + message));
      case Loaded(loaded) =>
        var data := if loaded.Some? then loaded.value else map[];
        var overridden := ApplyEnvOverrides(data, env);
        if overridden.Failure? {
          return Failure(BadShape(overridden.error));
        }
        var config := FromDict(overridden.value);
        if config.Failure? {
          return Failure(BadShape(config.error));
        }
        var errors := Validate(config.value);
        if errors != [] {
          return Failure(ValueError(ValidationMessage(errors)));
        }
        return Success(config.value);
    }
  }

  // ---------------------------------------------------------------------
  // Properties
  // ---------------------------------------------------------------------

  lemma ModesIssuesOfThree(c: ExperimentConfig)
    ensures ModesIssues(Modes(c)) == ModeIssues("single", c.generation.single)
                                     + ModeIssues("collab", c.generation.collab)
                                     + ModeIssues("competitive", c.generation.competitive)
  {
    var ms := Modes(c);
    assert ms[..|ms| - 1] == ms[..2];
    assert ms[..2][..|ms[..2]| - 1] == ms[..1];
    assert ms[..1][..|ms[..1]| - 1] == [];
    assert ModesIssues(ms[..1]) == ModeIssues("single", c.generation.single);
    assert ModesIssues(ms[..2]) == ModesIssues(ms[..1]) + ModeIssues("collab", c.generation.collab);
    assert ModesIssues(ms) == ModesIssues(ms[..2]) + ModeIssues("competitive", c.generation.competitive);
  }

  lemma PhasesIssuesOfThree(c: ExperimentConfig)
    ensures PhasesIssues(Phases(c)) == (if Get(c.evaluation.pytest, "enabled").Bool? then [] else [EvaluationEnabledNotBool("pytest")])
                                       + (if Get(c.evaluation.coverage, "enabled").Bool? then [] else [EvaluationEnabledNotBool("coverage")])
                                       + (if Get(c.evaluation.diversity, "enabled").Bool? then [] else [EvaluationEnabledNotBool("diversity")])
  {
    var ps := Phases(c);
    assert ps[..|ps| - 1] == ps[..2];
    assert ps[..2][..|ps[..2]| - 1] == ps[..1];
    assert ps[..1][..|ps[..1]| - 1] == [];
    assert PhasesIssues(ps[..1]) == (if Get(c.evaluation.pytest, "enabled").Bool? then [] else [EvaluationEnabledNotBool("pytest")]);
  }

  /** The default configuration validates. */
  lemma DefaultValid()
    ensures Issues(Default) == []
  {
    DefaultSectionsOk();
    DefaultFieldsOk();
    NoIssues(Default);
  }

  /** A configuration whose checks all pass, check by check, validates. */
  lemma NoIssues(c: ExperimentConfig)
    requires FieldIssues(c) == [] && GenerationIssues(c) == [] && TailIssues(c) == []
    requires ModeIssues("single", c.generation.single) == [] && ModeIssues("collab", c.generation.collab) == []
    requires ModeIssues("competitive", c.generation.competitive) == []
    requires Get(c.evaluation.pytest, "enabled").Bool? && Get(c.evaluation.coverage, "enabled").Bool?
    requires Get(c.evaluation.diversity, "enabled").Bool?
    ensures Issues(c) == []
  {
    ModesIssuesOfThree(c);
    PhasesIssuesOfThree(c);
  }

  lemma DefaultSectionsOk()
    ensures ModeIssues("collab", DefaultGeneration.collab) == []
    ensures ModeIssues("competitive", DefaultGeneration.competitive) == []
    ensures Get(DefaultEvaluation.pytest, "enabled").Bool? && Get(DefaultEvaluation.coverage, "enabled").Bool?
    ensures Get(DefaultEvaluation.diversity, "enabled").Bool?
  {
  }

  lemma DefaultFieldsOk()
    ensures ModeIssues("single", Default.generation.single) == []
    ensures FieldIssues(Default) == [] && GenerationIssues(Default) == [] && TailIssues(Default) == []
  {
  }

  lemma {:induction false} ModesIssuesKinds(modes: seq<(string, Section)>)
    ensures forall i :: i in ModesIssues(modes) ==> i.ModeEnabledNotBool? || i.ModeNumTestsNotInt?
  {
    if modes != [] {
      ModesIssuesKinds(modes[..|modes| - 1]);
    }
  }

  lemma {:induction false} PhasesIssuesKinds(phases: seq<(string, Section)>)
    ensures forall i :: i in PhasesIssues(phases) ==> i.EvaluationEnabledNotBool?
  {
    if phases != [] {
      PhasesIssuesKinds(phases[..|phases| - 1]);
    }
  }

  /** The issues that do not come from the per-mode and per-phase loops. */
  lemma IssuesMember(c: ExperimentConfig, i: Issue)
    requires !i.ModeEnabledNotBool? && !i.ModeNumTestsNotInt? && !i.EvaluationEnabledNotBool?
    ensures i in Issues(c) <==> i in FieldIssues(c) || i in GenerationIssues(c) || i in TailIssues(c)
  {
    ModesIssuesKinds(Modes(c));
    PhasesIssuesKinds(Phases(c));
  }

  /** The field checks report their issue exactly when the field is wrong. */
  lemma FieldIssueConditions(c: ExperimentConfig)
    ensures BadCutModule in Issues(c) <==> !CutModuleOk(c)
    ensures BadNumTests in Issues(c) <==> !NumTestsOk(c)
  {
    IssuesMember(c, BadCutModule);
    IssuesMember(c, BadNumTests);
  }

  /** The collab and competitive checks report their issue exactly when the
      enabled section's value is wrong. */
  lemma GenerationIssueConditions(c: ExperimentConfig)
    ensures BadNumAgents in Issues(c) <==> !NumAgentsOk(c)
    ensures BadCompetitionMode in Issues(c) <==> !CompetitionModeOk(c)
  {
    IssuesMember(c, BadNumAgents);
    IssuesMember(c, BadCompetitionMode);
  }

  /** The diversity-metric and logging-level checks report their issue
      exactly when the value is outside its allowed list. */
  lemma TailIssueConditions(c: ExperimentConfig)
    ensures BadDiversityMetric in Issues(c) <==> !DiversityMetricOk(c)
    ensures BadLoggingLevel in Issues(c) <==> !LoggingLevelOk(c)
  {
    IssuesMember(c, BadDiversityMetric);
    IssuesMember(c, BadLoggingLevel);
  }

  /** An empty module name is reported, in a message naming `cut_module`. */
  lemma EmptyCutModuleReported(c: ExperimentConfig)
    requires c.cutModule == Str("")
    ensures exists i :: i in Issues(c) && Contains(IssueText(i), "cut_module")
  {
    assert !CutModuleOk(c);
    assert FieldIssues(c)[0] == BadCutModule;
    assert Issues(c)[0] == BadCutModule;
    CutModuleTextNamesField();
  }

  lemma CutModuleTextNamesField()
    ensures Contains(IssueText(BadCutModule), "cut_module")
  {
    var t := IssueText(BadCutModule);
    assert t[..10] == "cut_module";
    OccursContains(t, "cut_module", 0);
  }

  /** A section map covering the defaults' keys is unchanged by merging it
      over them. */
  lemma MergeCovering(defaults: Section, section: Section)
    requires defaults.Keys <= section.Keys
    ensures defaults + section == section
  {
  }

  /** Every section of `c` holds at least the keys of the same section of `d`. */
  predicate Covers(d: ExperimentConfig, c: ExperimentConfig)
  {
    d.experiment.Keys <= c.experiment.Keys
    && d.generation.single.Keys <= c.generation.single.Keys
    && d.generation.collab.Keys <= c.generation.collab.Keys
    && d.generation.competitive.Keys <= c.generation.competitive.Keys
    && d.evaluation.pytest.Keys <= c.evaluation.pytest.Keys
    && d.evaluation.coverage.Keys <= c.evaluation.coverage.Keys
    && d.evaluation.diversity.Keys <= c.evaluation.diversity.Keys
    && d.aggregation.Keys <= c.aggregation.Keys
    && d.output.Keys <= c.output.Keys
    && d.logging.Keys <= c.logging.Keys
  }

  /** Every section holds at least the default keys. */
  predicate Extends(c: ExperimentConfig)
  {
    Covers(Default, c)
  }

  /** The mode issues come only from the loop over the modes. */
  lemma ModeIssuesMember(c: ExperimentConfig, i: Issue)
    requires i.ModeEnabledNotBool? || i.ModeNumTestsNotInt?
    ensures i in Issues(c) <==> i in ModesIssues(Modes(c))
  {
    PhasesIssuesKinds(Phases(c));
  }

  lemma ModeIssuesNamed(name: string, section: Section, i: Issue)
    requires i in ModeIssues(name, section)
    ensures i.mode == name
  {
  }

  /** An issue naming mode k can only come from that mode's checks. */
  lemma ModeIssuesOwn(c: ExperimentConfig, k: nat, i: Issue)
    requires k < 3 && (i.ModeEnabledNotBool? || i.ModeNumTestsNotInt?) && i.mode == Modes(c)[k].0
    ensures i in Issues(c) <==> i in ModeIssues(Modes(c)[k].0, Modes(c)[k].1)
  {
    ModesIssuesOfThree(c);
    ModeIssuesMember(c, i);
    var g := c.generation;
    if i in ModeIssues("single", g.single) {
      ModeIssuesNamed("single", g.single, i);
    }
    if i in ModeIssues("collab", g.collab) {
      ModeIssuesNamed("collab", g.collab, i);
    }
    if i in ModeIssues("competitive", g.competitive) {
      ModeIssuesNamed("competitive", g.competitive, i);
    }
    assert "single" != "collab" && "single" != "competitive" && "collab" != "competitive";
  }

  /** A mode's two checks report their issue exactly when its section is
      wrong. */
  lemma ModeIssueConditions(c: ExperimentConfig, k: nat)
    requires k < 3
    ensures var (name, section) := Modes(c)[k];
            (ModeEnabledNotBool(name) in Issues(c) <==> !Get(section, "enabled").Bool?)
            && (ModeNumTestsNotInt(name) in Issues(c) <==> Truthy(Get(section, "enabled")) && !IsInt(Get(section, "num_tests")))
  {
    var (name, section) := Modes(c)[k];
    ModeIssuesOwn(c, k, ModeEnabledNotBool(name));
    ModeIssuesOwn(c, k, ModeNumTestsNotInt(name));
  }

  // ----- from_dict and to_dict -----

  lemma MergeNestedExtends(section: Section, container: Value, key: string, path: string)
    requires MergeNested(section, container, key, path).Success?
    ensures section.Keys <= MergeNested(section, container, key, path).value.Keys
  {
  }

  lemma UpdateKeyExtends(d: ExperimentConfig, c: ExperimentConfig, data: map<string, Value>, k: TopKey)
    requires Covers(d, c) && UpdateKey(c, data, k).Success?
    ensures Covers(d, UpdateKey(c, data, k).value)
  {
    var name := KeyName(k);
    if name in data {
      match k
      case GenerationKey => GenerationExtends(c.generation, data[name]);
      case EvaluationKey => EvaluationExtends(c.evaluation, data[name]);
      case _ =>
    }
  }

  lemma GenerationExtends(g: GenerationConfig, v: Value)
    requires MergeGeneration(g, v).Success?
    ensures var m := MergeGeneration(g, v).value;
            g.single.Keys <= m.single.Keys && g.collab.Keys <= m.collab.Keys && g.competitive.Keys <= m.competitive.Keys
  {
    MergeNestedExtends(g.single, v, "single", "generation");
    MergeNestedExtends(g.collab, v, "collab", "generation");
    MergeNestedExtends(g.competitive, v, "competitive", "generation");
  }

  lemma EvaluationExtends(e: EvaluationConfig, v: Value)
    requires MergeEvaluation(e, v).Success?
    ensures var m := MergeEvaluation(e, v).value;
            e.pytest.Keys <= m.pytest.Keys && e.coverage.Keys <= m.coverage.Keys
  {
    MergeNestedExtends(e.pytest, v, "pytest", "evaluation");
    MergeNestedExtends(e.coverage, v, "coverage", "evaluation");
  }

  lemma {:induction false} UptoExtends(data: map<string, Value>, n: nat)
    requires n <= |KeyOrder| && Upto(data, n).Success?
    ensures Extends(Upto(data, n).value)
  {
    if n == 0 {
      DefaultExtends();
    } else {
      var prev := Upto(data, n - 1);
      assert prev.Success?;
      UptoExtends(data, n - 1);
      UpdateKeyExtends(Default, prev.value, data, KeyOrder[n - 1]);
    }
  }

  lemma DefaultExtends()
    ensures Extends(Default)
  {
  }

  /** The merge only adds keys: every section of a loaded configuration
      keeps the default keys. */
  lemma FromDataExtends(data: map<string, Value>)
    requires FromData(data).Success?
    ensures Extends(FromData(data).value)
  {
    UptoExtends(data, |KeyOrder|);
  }

  /** One more key's update, when it succeeds. */
  lemma UptoStep(data: map<string, Value>, n: nat, x: ExperimentConfig, y: ExperimentConfig)
    requires n < |KeyOrder| && Upto(data, n) == Success(x) && UpdateKey(x, data, KeyOrder[n]) == Success(y)
    ensures Upto(data, n + 1) == Success(y)
  {
  }

  /** A key the data does not name leaves the configuration as it is. */
  lemma AbsentKey(x: ExperimentConfig, data: map<string, Value>, k: TopKey)
    requires KeyName(k) !in data
    ensures UpdateKey(x, data, k) == Success(x)
  {
  }

  lemma GenerationRoundTrip(c: ExperimentConfig, g: GenerationConfig)
    requires Extends(c) && g.single.Keys <= c.generation.single.Keys
    requires g.collab.Keys <= c.generation.collab.Keys && g.competitive.Keys <= c.generation.competitive.Keys
    ensures MergeGeneration(g, ToDict(c)["generation"]) == Success(c.generation)
  {
    ToDictEntries(c);
    MergeCovering(g.single, c.generation.single);
    MergeCovering(g.collab, c.generation.collab);
    MergeCovering(g.competitive, c.generation.competitive);
  }

  lemma EvaluationRoundTrip(c: ExperimentConfig, e: EvaluationConfig)
    requires e.pytest.Keys <= c.evaluation.pytest.Keys && e.coverage.Keys <= c.evaluation.coverage.Keys
    requires e.diversity.Keys <= c.evaluation.diversity.Keys
    ensures MergeEvaluation(e, ToDict(c)["evaluation"]) == Success(c.evaluation)
  {
    ToDictEntries(c);
    MergeCovering(e.pytest, c.evaluation.pytest);
    MergeCovering(e.coverage, c.evaluation.coverage);
    MergeCovering(e.diversity, c.evaluation.diversity);
  }

  /** `c`'s section for key k, placed into x. */
  function Adopt(x: ExperimentConfig, c: ExperimentConfig, k: TopKey): ExperimentConfig
  {
    match k
    case ExperimentKey => x.(experiment := c.experiment)
    case CutModuleKey => x.(cutModule := c.cutModule)
    case NumTestsKey => x.(numTests := c.numTests)
    case GenerationKey => x.(generation := c.generation)
    case EvaluationKey => x.(evaluation := c.evaluation)
    case AggregationKey => x.(aggregation := c.aggregation)
    case OutputKey => x.(output := c.output)
    case LoggingKey => x.(logging := c.logging)
  }

  /** Updating a not yet updated section from `to_dict(c)` adopts `c`'s section. */
  lemma AdoptKey(c: ExperimentConfig, x: ExperimentConfig, k: TopKey)
    requires Extends(c) && Adopt(x, Default, k) == x
    ensures UpdateKey(x, ToDict(c), k) == Success(Adopt(x, c, k))
  {
    ToDictEntries(c);
    match k
    case ExperimentKey => MergeCovering(Default.experiment, c.experiment);
    case CutModuleKey =>
    case NumTestsKey =>
    case GenerationKey => GenerationRoundTrip(c, x.generation);
    case EvaluationKey => EvaluationRoundTrip(c, x.evaluation);
    case AggregationKey => MergeCovering(Default.aggregation, c.aggregation);
    case OutputKey => MergeCovering(Default.output, c.output);
    case LoggingKey => MergeCovering(Default.logging, c.logging);
  }

  /** The entries of `to_dict(c)`, one per top-level key. */
  lemma ToDictEntries(c: ExperimentConfig)
    ensures var d := ToDict(c);
            d["experiment"] == Dict(c.experiment) && d["cut_module"] == c.cutModule
            && d["num_tests"] == c.numTests && d["aggregation"] == Dict(c.aggregation)
            && d["output"] == Dict(c.output) && d["logging"] == Dict(c.logging)
            && d["generation"] == Dict(map["single" := Dict(c.generation.single),
                                           "collab" := Dict(c.generation.collab),
                                           "competitive" := Dict(c.generation.competitive)])
            && d["evaluation"] == Dict(map["pytest" := Dict(c.evaluation.pytest),
                                           "coverage" := Dict(c.evaluation.coverage),
                                           "diversity" := Dict(c.evaluation.diversity)])
  {
  }

  /** The configuration after adopting `c`'s first n sections. */
  function AdoptUpto(c: ExperimentConfig, n: nat): ExperimentConfig
    requires n <= |KeyOrder|
  {
    if n == 0 then Default else Adopt(AdoptUpto(c, n - 1), c, KeyOrder[n - 1])
  }

  lemma {:induction false} AdoptUptoUntouched(c: ExperimentConfig, n: nat, k: nat)
    requires n <= k < |KeyOrder|
    ensures Adopt(AdoptUpto(c, n), Default, KeyOrder[k]) == AdoptUpto(c, n)
  {
    if n > 0 {
      AdoptUptoUntouched(c, n - 1, k);
      KeyOrderDistinct(n - 1, k);
      AdoptOther(AdoptUpto(c, n - 1), c, Default, KeyOrder[n - 1], KeyOrder[k]);
    }
  }

  lemma KeyOrderDistinct(i: nat, j: nat)
    requires i < j < |KeyOrder|
    ensures KeyOrder[i] != KeyOrder[j]
  {
  }

  /** Adopting one section keeps another section as it was. */
  lemma AdoptOther(x: ExperimentConfig, c: ExperimentConfig, d: ExperimentConfig, a: TopKey, b: TopKey)
    requires a != b && Adopt(x, d, b) == x
    ensures Adopt(Adopt(x, c, a), d, b) == Adopt(x, c, a)
  {
  }

  /** Reading back `to_dict(c)`: the first n updates adopt `c`'s first n sections. */
  lemma {:induction false} UptoAdopts(c: ExperimentConfig, data: map<string, Value>, n: nat)
    requires n <= |KeyOrder|
    requires forall i :: 0 <= i < |KeyOrder| ==>
      UpdateKey(AdoptUpto(c, i), data, KeyOrder[i]) == Success(Adopt(AdoptUpto(c, i), c, KeyOrder[i]))
    ensures Upto(data, n) == Success(AdoptUpto(c, n))
  {
    if n > 0 {
      UptoAdopts(c, data, n - 1);
      var prev := AdoptUpto(c, n - 1);
      UptoStep(data, n - 1, prev, Adopt(prev, c, KeyOrder[n - 1]));
    }
  }

  /** Each update from `to_dict(c)`, made after the ones before it, adopts `c`'s section. */
  lemma AdoptsEach(c: ExperimentConfig)
    requires Extends(c)
    ensures forall i :: 0 <= i < |KeyOrder| ==>
      UpdateKey(AdoptUpto(c, i), ToDict(c), KeyOrder[i]) == Success(Adopt(AdoptUpto(c, i), c, KeyOrder[i]))
  {
    forall i | 0 <= i < |KeyOrder|
      ensures UpdateKey(AdoptUpto(c, i), ToDict(c), KeyOrder[i]) == Success(Adopt(AdoptUpto(c, i), c, KeyOrder[i]))
    {
      AdoptUptoUntouched(c, i, i);
      AdoptKey(c, AdoptUpto(c, i), KeyOrder[i]);
    }
  }

  lemma AdoptAll(c: ExperimentConfig)
    ensures AdoptUpto(c, |KeyOrder|) == c
  {
    AdoptUptoAgrees(c, |KeyOrder|);
    AgreesEverywhere(AdoptUpto(c, |KeyOrder|), c);
  }

  /** After n adoptions, adopting any of the first n sections again changes nothing. */
  lemma {:induction false} AdoptUptoAgrees(c: ExperimentConfig, n: nat)
    requires n <= |KeyOrder|
    ensures forall i :: 0 <= i < n ==> Adopt(AdoptUpto(c, n), c, KeyOrder[i]) == AdoptUpto(c, n)
  {
    if n > 0 {
      AdoptUptoAgrees(c, n - 1);
      var y := AdoptUpto(c, n - 1);
      forall i | 0 <= i < n
        ensures Adopt(Adopt(y, c, KeyOrder[n - 1]), c, KeyOrder[i]) == Adopt(y, c, KeyOrder[n - 1])
      {
        if i < n - 1 {
          KeyOrderDistinct(i, n - 1);
          AdoptOther(y, c, c, KeyOrder[n - 1], KeyOrder[i]);
        } else {
          AdoptTwice(y, c, KeyOrder[i]);
        }
      }
    }
  }

  lemma AdoptTwice(x: ExperimentConfig, c: ExperimentConfig, k: TopKey)
    ensures Adopt(Adopt(x, c, k), c, k) == Adopt(x, c, k)
  {
  }

  /** A configuration that already holds each of `c`'s sections is `c`. */
  lemma AgreesEverywhere(x: ExperimentConfig, c: ExperimentConfig)
    requires forall i :: 0 <= i < |KeyOrder| ==> Adopt(x, c, KeyOrder[i]) == x
    ensures x == c
  {
    assert Adopt(x, c, KeyOrder[0]) == x && Adopt(x, c, KeyOrder[1]) == x;
    assert Adopt(x, c, KeyOrder[2]) == x && Adopt(x, c, KeyOrder[3]) == x;
    assert Adopt(x, c, KeyOrder[4]) == x && Adopt(x, c, KeyOrder[5]) == x;
    assert Adopt(x, c, KeyOrder[6]) == x && Adopt(x, c, KeyOrder[7]) == x;
  }

  /** `from_dict(to_dict(c))` reproduces `c` when every section holds the
      default keys, as every loaded configuration does. */
  lemma RoundTrip(c: ExperimentConfig)
    requires Extends(c)
    ensures FromData(ToDict(c)) == Success(c)
  {
    AdoptsEach(c);
    UptoAdopts(c, ToDict(c), |KeyOrder|);
    AdoptAll(c);
  }

  /** Reloading an exported configuration reproduces it. */
  lemma ReloadExported(data: map<string, Value>)
    requires FromData(data).Success?
    ensures FromData(ToDict(FromData(data).value)) == FromData(data)
  {
    FromDataExtends(data);
    RoundTrip(FromData(data).value);
  }

  /** The data restricted to the keys `from_dict` reads. */
  function Known(data: map<string, Value>): (known: map<string, Value>)
    ensures known.Keys == data.Keys * TopLevelKeys
  {
    map k | k in data && k in TopLevelKeys :: data[k]
  }

  lemma {:induction false} UptoKnown(data: map<string, Value>, n: nat)
    requires n <= |KeyOrder|
    ensures Upto(data, n) == Upto(Known(data), n)
  {
    if n > 0 {
      UptoKnown(data, n - 1);
      assert KeyName(KeyOrder[n - 1]) in TopLevelKeys;
    }
  }

  /** Keys other than the eight it reads do not affect `from_dict`. */
  lemma UnknownKeysIgnored(data: map<string, Value>)
    ensures FromData(data) == FromData(Known(data))
  {
    UptoKnown(data, |KeyOrder|);
  }

  /** A "mutation" entry of the evaluation section is ignored. */
  lemma MutationSectionIgnored(e: EvaluationConfig, entries: map<string, Value>)
    ensures MergeEvaluation(e, Dict(entries)) == MergeEvaluation(e, Dict(entries - {"mutation"}))
  {
    assert "pytest" != "mutation" && "coverage" != "mutation" && "diversity" != "mutation";
  }

  /** The configuration loaded from `PartialData`. */
  const PartialData := map["cut_module" := Str("test_module"), "num_tests" := Int(20),
                           "generation" := Dict(map["single" := Dict(map["enabled" := Bool(false)])])]
  const PartialExpected := Default.(cutModule := Str("test_module"), numTests := Int(20),
                                    generation := DefaultGeneration.(single := map["enabled" := Bool(false), "num_tests" := Int(10)]))

  /** Loading `{"cut_module": "test_module", "num_tests": 20, "generation":
      {"single": {"enabled": False}}}`: the single section keeps its
      default `num_tests` of 10. */
  lemma PartialSectionKeepsDefaults(data: map<string, Value>)
    requires data == PartialData
    ensures FromData(data) == Success(PartialExpected)
  {
    PartialHead(data);
    PartialGeneration(data);
    var c3 := Default.(cutModule := Str("test_module"), numTests := Int(20));
    GenerationUpdate(c3, data, PartialExpected.generation);
    assert c3.(generation := PartialExpected.generation) == PartialExpected;
    UptoStep(data, 3, c3, PartialExpected);
    PartialTail(data);
  }

  lemma PartialHead(data: map<string, Value>)
    requires data == PartialData
    ensures Upto(data, 3) == Success(Default.(cutModule := Str("test_module"), numTests := Int(20)))
  {
    assert "experiment" !in data;
    AbsentKey(Default, data, ExperimentKey);
    UptoStep(data, 0, Default, Default);
    var c2 := Default.(cutModule := Str("test_module"));
    UptoStep(data, 1, Default, c2);
    UptoStep(data, 2, c2, c2.(numTests := Int(20)));
  }

  /** A generation update naming only the single mode merges only that section. */
  lemma SingleOnlyMerge(g: GenerationConfig, entries: map<string, Value>)
    requires entries.Keys == {"single"} && entries["single"].Dict?
    ensures MergeGeneration(g, Dict(entries)) == Success(g.(single := g.single + entries["single"].entries))
  {
    assert "collab" !in entries && "competitive" !in entries;
  }

  lemma GenerationUpdate(x: ExperimentConfig, data: map<string, Value>, g: GenerationConfig)
    requires "generation" in data && MergeGeneration(x.generation, data["generation"]) == Success(g)
    ensures UpdateKey(x, data, GenerationKey) == Success(x.(generation := g))
  {
  }

  lemma PartialGeneration(data: map<string, Value>)
    requires data == PartialData
    ensures "generation" in data && MergeGeneration(DefaultGeneration, data["generation"]) == Success(PartialExpected.generation)
  {
    var entries := map["single" := Dict(map["enabled" := Bool(false)])];
    assert "generation" in data && data["generation"] == Dict(entries);
    SingleOnlyMerge(DefaultGeneration, entries);
    SingleDisabled();
  }

  lemma SingleDisabled()
    ensures DefaultGeneration.single + map["enabled" := Bool(false)] == PartialExpected.generation.single
  {
  }

  lemma PartialTail(data: map<string, Value>)
    requires data == PartialData && Upto(data, 4) == Success(PartialExpected)
    ensures FromData(data) == Success(PartialExpected)
  {
    PartialUntouched(data, PartialExpected);
  }

  /** Data naming none of the last four keys: their updates change nothing. */
  lemma PartialUntouched(data: map<string, Value>, x: ExperimentConfig)
    requires "evaluation" !in data && "aggregation" !in data && "output" !in data && "logging" !in data
    requires Upto(data, 4) == Success(x)
    ensures Upto(data, 8) == Success(x)
  {
    AbsentKey(x, data, EvaluationKey);
    UptoStep(data, 4, x, x);
    AbsentKey(x, data, AggregationKey);
    UptoStep(data, 5, x, x);
    AbsentKey(x, data, OutputKey);
    UptoStep(data, 6, x, x);
    AbsentKey(x, data, LoggingKey);
    UptoStep(data, 7, x, x);
  }

  /** That configuration validates. */
  lemma PartialSectionValid()
    ensures Issues(PartialExpected) == []
  {
    DefaultSectionsOk();
    PartialFieldsOk();
    NoIssues(PartialExpected);
  }

  lemma PartialFieldsOk()
    ensures ModeIssues("single", PartialExpected.generation.single) == []
    ensures FieldIssues(PartialExpected) == [] && GenerationIssues(PartialExpected) == [] && TailIssues(PartialExpected) == []
  {
  }

  // ----- environment overrides and loading -----

  lemma DigitCharValue(d: nat)
    requires d < 10
    ensures IsDigit(DigitChar(d)) && DigitChar(d) as int - '0' as int == d
  {
    if d < 5 {
      assert d == 0 || d == 1 || d == 2 || d == 3 || d == 4;
    } else {
      assert d == 5 || d == 6 || d == 7 || d == 8 || d == 9;
    }
  }

  /** `str(n)` of a natural is a run of digits whose value is `n`. */
  lemma {:induction false} NatToStringDigits(n: nat)
    ensures forall k :: 0 <= k < |NatToString(n)| ==> IsDigit(NatToString(n)[k])
    ensures DigitsValue(NatToString(n)) == n
  {
    var s := NatToString(n);
    if n < 10 {
      DigitCharValue(n);
    } else {
      NatToStringDigits(n / 10);
      DigitCharValue(n % 10);
      assert s[..|s| - 1] == NatToString(n / 10);
    }
  }

  /** `int(str(i)) == i`: the parse of an environment value reads back any integer `str` wrote. */
  lemma ParseIntRoundTrip(i: int)
    ensures ParseInt(IntToString(i)) == Some(i)
  {
    var s := IntToString(i);
    var body := if i < 0 then NatToString(-i) else NatToString(i);
    NatToStringDigits(if i < 0 then -i else i);
    assert s == (if i < 0 then "-" else "") + body;
    assert !IsSpace(s[0]) && !IsSpace(s[|s| - 1]);
    assert TrimLeft(s) == s;
    assert Strip(s) == s;
    assert (if s[0] == '-' || s[0] == '+' then s[1..] else s) == body;
    assert DigitGroups(body);
  }

  /** A non-integer `EXPERIMENT_NUM_TESTS` leaves `num_tests` as it was. */
  lemma NonIntegerNumTestsIgnored(data: map<string, Value>, env: map<string, string>)
    requires NumTestsVar in env && ParseInt(env[NumTestsVar]).None?
    requires Overridden(data, env).Success?
    ensures var r := Overridden(data, env).value;
            ("num_tests" in r <==> "num_tests" in data) && ("num_tests" in data ==> r["num_tests"] == data["num_tests"])
  {
    assert "num_tests" != "cut_module" && "num_tests" != "experiment";
  }

  /** `EXPERIMENT_ID` creates the experiment section when there is none. */
  lemma ExperimentIdCreatesSection(data: map<string, Value>, env: map<string, string>)
    requires IdVar in env && "experiment" !in data
    ensures Overridden(data, env).Success?
    ensures Overridden(data, env).value["experiment"] == Dict(map["id" := Str(env[IdVar])])
  {
    assert "experiment" != "cut_module" && "experiment" != "num_tests";
  }

  /** The overrides fail only on an experiment entry that is not a dictionary. */
  lemma OverridesFailOnlyOnBadExperiment(data: map<string, Value>, env: map<string, string>)
    ensures Overridden(data, env).Failure? <==> IdVar in env && "experiment" in data && !data["experiment"].Dict?
  {
    assert "experiment" != "cut_module" && "experiment" != "num_tests";
  }

  /** Loading stops with a validation error exactly when the merged
      configuration has issues; without a path the defaults are used. */
  lemma LoadRejectsIffIssues(data: Option<map<string, Value>>, env: map<string, string>)
    requires var d := if data.Some? then data.value else map[];
             Overridden(d, env).Success? && FromData(Overridden(d, env).value).Success?
    ensures var c := FromData(Overridden(if data.Some? then data.value else map[], env).value).value;
            var r := Loading(Loaded(data), env);
            (r.Failure? <==> Issues(c) != [])
            && (r.Failure? ==> r.error == ValueError(ValidationMessage(Issues(c))))
            && (r.Success? ==> r.value == c)
  {
  }

  lemma LoadWithoutPath(env: map<string, string>)
    ensures Loading(NoPath, env) == Success(Default) && Issues(Default) == []
  {
    DefaultValid();
  }
}
