/** The evaluation loop of `eval_mutation` (impl/scripts/eval_mutation.py):
    discover the catalog, test a prefix of it one mutant at a time against the
    test suite, restore the artifact after each mutant, and score the result.
    Running pytest is a parameter: the outcome of each attempt is given. */
module MutationEval {
  import opened Wrappers
  import opened Text
  import opened MutationCatalog
  import opened Mutator
  import opened TextMutation
  import opened CatalogExample

  /** What the test command did: exited with a code, ran past its timeout, or
      could not be started (`subprocess.run` raised). */
  datatype RunResult = Exited(code: int) | TimedOut | LaunchFailed

  /** The exit code `run_tests` reports: both failures fold into -1. */
  function ExitCode(r: RunResult): int
  {
    match r
    case Exited(c) => c
    case TimedOut => -1
    case LaunchFailed => -1
  }

  /** One mutant: something raised after leaving `partial` in the file (the
      write itself, or `run_tests` resolving the test directory before its own
      `try`, in which case `partial` is the whole mutant), or it was written and
      the tests ran. */
  datatype Attempt = WriteFailed(partial: string) | Ran(result: RunResult)

  datatype Outcome = Killed | Survived | Timeout | Errored

  /** The branch of the loop body an attempt takes. */
  function Classify(a: Attempt): (o: Outcome)
    ensures o == Errored <==> a.WriteFailed?
    ensures o == Timeout <==> a.Ran? && ExitCode(a.result) == -1
    ensures o == Killed <==> a.Ran? && ExitCode(a.result) != -1 && ExitCode(a.result) != 0
    ensures o == Survived <==> a.Ran? && ExitCode(a.result) == 0
  {
    match a
    case WriteFailed(_) => Errored
    case Ran(r) =>
      var code := ExitCode(r);
      if code == -1 then Timeout else if code != 0 then Killed else Survived
  }

  datatype Counts = Counts(killed: nat, survived: nat, timeout: nat, errors: nat)

  function Count(outcomes: seq<Outcome>, o: Outcome): nat
  {
    if outcomes == [] then 0 else Count(outcomes[..|outcomes| - 1], o) + (if outcomes[|outcomes| - 1] == o then 1 else 0)
  }

  /** The four counters after the loop has seen `outcomes`. */
  function Tally(outcomes: seq<Outcome>): Counts
  {
    Counts(Count(outcomes, Killed), Count(outcomes, Survived), Count(outcomes, Timeout), Count(outcomes, Errored))
  }

  /** One more outcome adds one to its own counter. */
  lemma TallyStep(outcomes: seq<Outcome>, i: nat)
    requires i < |outcomes|
    ensures var (before, o) := (Tally(outcomes[..i]), outcomes[i]);
            Tally(outcomes[..i + 1]) == Counts(before.killed + (if o == Killed then 1 else 0),
                                               before.survived + (if o == Survived then 1 else 0),
                                               before.timeout + (if o == Timeout then 1 else 0),
                                               before.errors + (if o == Errored then 1 else 0))
  {
    assert outcomes[..i + 1][..i] == outcomes[..i];
  }

  /** Every tested mutant lands in exactly one counter. */
  lemma {:induction false} TallyTotal(outcomes: seq<Outcome>)
    ensures var c := Tally(outcomes); c.killed + c.survived + c.timeout + c.errors == |outcomes|
  {
    if outcomes != [] {
      TallyTotal(outcomes[..|outcomes| - 1]);
    }
  }

  /** `killed / total_tested if total_tested > 0 else 0.0` with `total_tested = killed + survived`. */
  function Score(killed: nat, survived: nat): (s: real)
    ensures 0.0 <= s <= 1.0
    ensures killed + survived == 0 ==> s == 0.0
    ensures s == 1.0 <==> killed > 0 && survived == 0
    ensures s == 0.0 <==> killed == 0
  {
    if killed + survived > 0 then killed as real / (killed + survived) as real else 0.0
  }

  /** `all[:max_mutations]`, including Python's reading of a negative bound. */
  function Budget(all: seq<Mutation>, maxMutations: int): (tested: seq<Mutation>)
    ensures tested <= all
    ensures maxMutations >= 0 ==> |tested| == if maxMutations < |all| then maxMutations else |all|
    ensures maxMutations < 0 ==> |tested| == if |all| + maxMutations > 0 then |all| + maxMutations else 0
  {
    var end := if maxMutations >= 0 then (if maxMutations < |all| then maxMutations else |all|)
               else (if |all| + maxMutations > 0 then |all| + maxMutations else 0);
    all[..end]
  }

  /** The mutant text for catalogued site `id`: a fresh target-mode mutator. */
  function MutantSource(source: string, parsed: Option<Node>, renderer: Renderer, id: nat): string
  {
    Mutated(source, parsed, renderer, [], 0, Some(id)).0
  }

  /** The outcome of each tested mutant, in order; `tests(i, code)` is what
      happened to the `i`-th mutant, whose text is `code`. */
  function Outcomes(source: string, parsed: Option<Node>, renderer: Renderer, tested: seq<Mutation>,
                    tests: (nat, string) -> Attempt): (os: seq<Outcome>)
    ensures |os| == |tested|
    ensures forall i :: 0 <= i < |tested| ==> os[i] == Classify(tests(i, MutantSource(source, parsed, renderer, tested[i].id)))
  {
    seq(|tested|, i requires 0 <= i < |tested| => Classify(tests(i, MutantSource(source, parsed, renderer, tested[i].id))))
  }

  /** The file under mutation and its `.py.backup` copy (`None`: no such file). */
  class Artifact {
    var content: string
    var backup: Option<string>

    constructor (content: string, backup: Option<string>)
      ensures this.content == content && this.backup == backup
    {
      this.content := content;
      this.backup := backup;
    }

    /** `shutil.copy2(mutation_target, backup_file)` */
    method SaveBackup()
      modifies this
      ensures backup == Some(content) && content == old(content)
    {
      backup := Some(content);
    }

    /** `if backup_file.exists(): shutil.copy2(backup_file, mutation_target)` */
    method RestoreFromBackup()
      modifies this
      ensures backup == old(backup)
      ensures content == if backup.Some? then backup.value else old(content)
    {
      if backup.Some? {
        content := backup.value;
      }
    }

    /** `if backup_file.exists(): backup_file.unlink()` */
    method RemoveBackup()
      modifies this
      ensures backup == None && content == old(content)
    {
      backup := None;
    }
  }

  /** Step 4 of `eval_mutation`: every mutant of `tested` is written over the
      artifact, the tests run, and the artifact is restored from the backup
      taken before the first write. The artifact ends as it started and the
      backup is gone; the counters are the tally of the outcomes. */
  method TestMutants(artifact: Artifact, parsed: Option<Node>, renderer: Renderer, tested: seq<Mutation>,
                     tests: (nat, string) -> Attempt)
    returns (counts: Counts)
    modifies artifact
    ensures artifact.content == old(artifact.content) && artifact.backup == None
    ensures counts == Tally(Outcomes(old(artifact.content), parsed, renderer, tested, tests))
  {
    var originalSource := artifact.content;
    ghost var outcomes := Outcomes(originalSource, parsed, renderer, tested, tests);
    var killed, survived, timeoutCount, errorCount := 0, 0, 0, 0;
    var i := 0;
    while i < |tested|
      invariant 0 <= i <= |tested|
      invariant artifact.content == originalSource
      invariant i > 0 ==> artifact.backup == Some(originalSource)
      invariant Counts(killed, survived, timeoutCount, errorCount) == Tally(outcomes[..i])
    {
      var singleMutator := new SimpleMutator(Some(tested[i].id));
      var mutatedCode, _ := CreateMutation(originalSource, parsed, renderer, singleMutator);
      if i == 0 {
        artifact.SaveBackup();
      }
      var attempt := tests(i, mutatedCode);
      assert outcomes[i] == Classify(attempt);
      TallyStep(outcomes, i);
      match attempt {
        case WriteFailed(partial) =>
          artifact.content := partial;
          errorCount := errorCount + 1;
        case Ran(result) =>
          artifact.content := mutatedCode;
          var exitCode := ExitCode(result);
          if exitCode == -1 {
            timeoutCount := timeoutCount + 1;
          } else if exitCode != 0 {
            killed := killed + 1;
          } else {
            survived := survived + 1;
          }
      }
      artifact.RestoreFromBackup();
      i := i + 1;
    }
    assert outcomes[..i] == outcomes;
    artifact.RemoveBackup();
    counts := Counts(killed, survived, timeoutCount, errorCount);
  }
  /** What `eval_mutation` learns about its surroundings before mutating:
      whether the test directory and the target exist, what
      `validate_test_directory` found, the baseline test run, and whether the
      target could be read. */
  datatype Environment = Environment(testDirExists: bool, targetExists: bool, testFiles: nat,
                                     validTests: nat, baseline: RunResult, readable: bool)

  /** The reasons for the early returns, in the order they are checked. */
  datatype EarlyExit = MissingTestDir | MissingTarget | NoValidTests | BaselineFailed | Unreadable | NoMutations

  /** The record `eval_mutation` returns: an error record has score 0.0 and
      all counters 0; a metrics record has `suspicious` fixed at 0. */
  datatype Report =
    | ErrorRecord(error: EarlyExit)
    | MetricsRecord(score: real, killed: nat, survived: nat, timeout: nat, suspicious: nat, skipped: nat)

  datatype PyError = NameError(name: string)

  /** The catalog of a discovery-mode `create_mutation`. */
  function Catalog(source: string, parsed: Option<Node>, renderer: Renderer): seq<Mutation>
  {
    Mutated(source, parsed, renderer, [], 0, None).1
  }

  /** The first early return whose guard holds, if any. */
  function EarlyExitOf(env: Environment, all: seq<Mutation>): (e: Option<EarlyExit>)
    ensures e == None <==> env.testDirExists && env.targetExists && env.testFiles > 0 && env.validTests > 0
                           && ExitCode(env.baseline) != -1 && env.readable && all != []
  {
    if !env.testDirExists then Some(MissingTestDir)
    else if !env.targetExists then Some(MissingTarget)
    else if env.testFiles == 0 || env.validTests == 0 then Some(NoValidTests)
    else if ExitCode(env.baseline) == -1 then Some(BaselineFailed)
    else if !env.readable then Some(Unreadable)
    else if all == [] then Some(NoMutations)
    else None
  }

  /** The metrics dictionary as intended: `skipped` is the part of the catalog
      beyond the budget. */
  function FinalMetrics(c: Counts, allCount: nat, testedCount: nat): (r: Report)
    requires testedCount <= allCount
    ensures r.MetricsRecord? && r.suspicious == 0
    ensures r.killed == c.killed && r.survived == c.survived && r.timeout == c.timeout
    ensures r.skipped + testedCount == allCount
    ensures r.score == Score(c.killed, c.survived)
  {
    MetricsRecord(Score(c.killed, c.survived), c.killed, c.survived, c.timeout, 0, allCount - testedCount)
  }

  /** The metrics dictionary as written: `len(mutations)` names no variable in
      scope, so building the dictionary raises. */
  function FinalMetricsAsWritten(c: Counts, allCount: nat, testedCount: nat): (r: Result<Report, PyError>)
    ensures r == Failure(NameError("mutations"))
  {
    Failure(NameError("mutations"))
  }

  /** The whole of `eval_mutation`, with the intended `skipped`. */
  function Evaluation(env: Environment, source: string, parsed: Option<Node>, renderer: Renderer,
                      tests: (nat, string) -> Attempt, maxMutations: int): Report
  {
    var all := Catalog(source, parsed, renderer);
    match EarlyExitOf(env, all)
    case Some(e) => ErrorRecord(e)
    case None =>
      var tested := Budget(all, maxMutations);
      FinalMetrics(Tally(Outcomes(source, parsed, renderer, tested, tests)), |all|, |tested|)
  }

  /** The whole of `eval_mutation` as written. */
  function EvaluationAsWritten(env: Environment, source: string, parsed: Option<Node>, renderer: Renderer,
                               tests: (nat, string) -> Attempt, maxMutations: int): Result<Report, PyError>
  {
    var all := Catalog(source, parsed, renderer);
    match EarlyExitOf(env, all)
    case Some(e) => Success(ErrorRecord(e))
    case None =>
      var tested := Budget(all, maxMutations);
      FinalMetricsAsWritten(Tally(Outcomes(source, parsed, renderer, tested, tests)), |all|, |tested|)
  }

  /** As written, every run that gets past the early returns raises, and only those. */
  lemma AsWrittenRaisesExactlyOnMetrics(env: Environment, source: string, parsed: Option<Node>, renderer: Renderer,
                                        tests: (nat, string) -> Attempt, maxMutations: int)
    ensures var r := EvaluationAsWritten(env, source, parsed, renderer, tests, maxMutations);
            var intended := Evaluation(env, source, parsed, renderer, tests, maxMutations);
            (r.Failure? <==> intended.MetricsRecord?) && (r.Success? ==> r.value == intended)
  {
  }

  /** A concrete run that shows the error: the calculator module, whose
      catalog has eleven sites, in a healthy environment. As written it
      raises; as intended it reports nothing skipped. */
  lemma CalculatorRunAsWritten(source: string, renderer: Renderer, tests: (nat, string) -> Attempt)
    ensures var env := Environment(true, true, 1, 1, Exited(0), true);
            EvaluationAsWritten(env, source, Some(Calculator()), renderer, tests, 20) == Failure(NameError("mutations"))
            && Evaluation(env, source, Some(Calculator()), renderer, tests, 20).skipped == 0
  {
    FreshCatalog(source, Calculator(), renderer, None);
    CalculatorCatalog();
  }

  /** What the intended record promises: the score is a fraction, the
      counters account for at most the tested mutants, and `skipped` is the
      rest of the catalog; a non-negative budget at least the catalog's size
      skips nothing. */
  lemma {:induction false} EvaluationBounds(env: Environment, source: string, parsed: Option<Node>, renderer: Renderer,
                                            tests: (nat, string) -> Attempt, maxMutations: int)
    ensures var r := Evaluation(env, source, parsed, renderer, tests, maxMutations);
            var all := Catalog(source, parsed, renderer);
            var tested := Budget(all, maxMutations);
            (r.ErrorRecord? <==> EarlyExitOf(env, all).Some?)
            && (r.MetricsRecord? ==>
                  0.0 <= r.score <= 1.0 && r.suspicious == 0
                  && r.killed + r.survived + r.timeout <= |tested|
                  && r.skipped == |all| - |tested|
                  && (maxMutations >= |all| ==> r.skipped == 0))
  {
    var all := Catalog(source, parsed, renderer);
    var tested := Budget(all, maxMutations);
    TallyTotal(Outcomes(source, parsed, renderer, tested, tests));
  }

  /** `eval_mutation`: the early returns leave the artifact and its backup
      alone; a full run restores the artifact and removes the backup. */
  method EvalMutation(artifact: Artifact, env: Environment, parsed: Option<Node>, renderer: Renderer,
                      tests: (nat, string) -> Attempt, maxMutations: int)
    returns (report: Report)
    modifies artifact
    ensures report == Evaluation(env, old(artifact.content), parsed, renderer, tests, maxMutations)
    ensures artifact.content == old(artifact.content)
    ensures artifact.backup == if report.ErrorRecord? then old(artifact.backup) else None
  {
    if !env.testDirExists {
      return ErrorRecord(MissingTestDir);
    }
    if !env.targetExists {
      return ErrorRecord(MissingTarget);
    }
    if env.testFiles == 0 || env.validTests == 0 {
      return ErrorRecord(NoValidTests);
    }
    var exitCode := ExitCode(env.baseline);
    if exitCode == -1 {
      return ErrorRecord(BaselineFailed);
    }
    if !env.readable {
      return ErrorRecord(Unreadable);
    }
    var originalSource := artifact.content;
    var discoveryMutator := new SimpleMutator(None);
    var _, allMutations := CreateMutation(originalSource, parsed, renderer, discoveryMutator);
    if allMutations == [] {
      return ErrorRecord(NoMutations);
    }
    var mutationsToTest := Budget(allMutations, maxMutations);
    var counts := TestMutants(artifact, parsed, renderer, mutationsToTest, tests);
    report := FinalMetrics(counts, |allMutations|, |mutationsToTest|);
  }
}
