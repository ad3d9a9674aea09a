# LLM agents for collaborative test generation: a verified model of the deterministic core

This project models, in Dafny, the parts of the test-generation research
harness that do not depend on a language model, a subprocess or the file
system. It then proves properties of those parts.

- **Mutation engine (`impl/scripts/eval_mutation.py`).** The model covers:
  - the `SimpleMutator` tree walk, with its id counter and the catalog it records;
  - target-mode rewriting;
  - the line-based text fallback `_simple_regex_mutation`;
  - `create_mutation`;
  - the classification of test runs;
  - the backup and restore loop of `eval_mutation`;
  - the score and the budget;
  - the early-exit records.
- **Test merging (`impl/scripts/generate_collab.py` and `impl/scripts/generate_competitive.py`).** The two files carry identical copies of the shared helpers, modelled once. The model covers:
  - de-duplication of collected test functions;
  - extraction of code from a model response;
  - detection of the import line;
  - selection of top-level `test_` functions;
  - `validate_test_code`;
  - the decorator fallback of `get_function_source_code`;
  - role selection;
  - the argument checks of both generators;
  - `format_existing_tests`;
  - assembly of the combined test file.
- **Test quality (`impl/scripts/test_quality_validator.py`).** The model covers `TestQualityValidator` over parsed test modules:
  - its metrics, warnings and duplicate detection;
  - the quality score;
  - its suggestions.
- **Experiment configuration (`impl/scripts/experiment_config.py`).** The model covers:
  - `from_dict`, which merges each section into the defaults;
  - `to_dict`;
  - `validate`;
  - the environment overrides;
  - the validation gate of `load_config`.
- **Code under test (`impl/cut/`).**
  - `data_structures.py`: `Stack`, `Queue`, min and max, reversal, de-duplication, sorted merge, flattening and counting.
  - `string_utils.py`, except the two functions listed under "Left out".
  - `calculator.py`: `factorial` and the zero-divisor guard of `divide`.

Layout: one module per source file. There are also two helper modules:

- `Wrappers`: the `Option` and `Result` types.
- `Text`: the Python `str` operations the sources use, stated on `seq<char>`:
  - `strip`, `split` and `join`;
  - `find`, `replace` and `in`;
  - `lower` and `isspace`;
  - whitespace normalisation;
  - `str(int)`.

`CatalogExample` works out the catalog of `impl/cut/calculator.py` on its syntax tree.

Where the source changes state, the model does too:

- `SimpleMutator`, `Stack`, `Queue`, the mutated `Artifact` file and `TestQualityValidator` are classes.
- The loops of the source are `while`/`for` loops, proved against specification functions.
- Each specification function's own properties are proved as lemmas.

Foreign calls enter the model as parameters:

- **Parsing.** Python's `ast.parse` becomes a parsed tree, or `None` for a syntax error.
- **Regeneration of source.** `ast.unparse` becomes a `Renderer`.
- **The test runner.** `run_tests` becomes an oracle: from the mutant's number and text it gives an `Attempt`.
- **The environment.** It is a map.
- **The YAML file.** It is a `ConfigSource`.

## Model

| member | source | states |
|---|---|---|
| MutationCatalog.Visit | impl/scripts/eval_mutation.py:30-172 | the definition of `visit` with the counter at `id`: dispatch to the three visitors or `generic_visit`. The lemmas below prove that its counter and entries do not depend on the target, that ids increase, that entries come from the table, and that a node changes iff its entry is targeted |
| MutationCatalog.VisitBinOp | impl/scripts/eval_mutation.py:30-103 | the definition of `visit_BinOp`: the id is bumped for every operator, an entry is recorded for `+ - * /`, and the operands are visited left then right (`IdsIncreaseBinOp`, `RewrittenIffBinOp`) |
| MutationCatalog.VisitCompare | impl/scripts/eval_mutation.py:105-155 | the definition of `visit_Compare`: only a single-operator comparison bumps the id, and only `< > <= >=` are recorded (`IdsIncreaseCompare`, `RewrittenIffCompare`) |
| MutationCatalog.VisitConstant | impl/scripts/eval_mutation.py:157-172 | the definition of `visit_Constant`: a non-zero number bumps the id and records n+1 or n−1; zero and non-numbers are left alone (`EntriesInTable`, `RewrittenIff`) |
| MutationCatalog.Discover | impl/scripts/eval_mutation.py:384-385 | the catalog of discovery mode. `DiscoverWellFormed` proves its ids strictly increase, and `TargetModeCatalog` proves target mode records the same catalog |
| MutationCatalog.Apply | impl/scripts/eval_mutation.py:416-419 | the tree a target-mode mutator returns. `ApplyChangesIff` proves it differs from the input iff the catalog holds the target id |
| MutationCatalog.CatalogIndependentOfTarget | impl/scripts/eval_mutation.py:30-172 | the counter reached and the entries recorded while visiting a node are the same for every target, so a target-mode mutator records the discovery catalog |
| MutationCatalog.CatalogAllIndependentOfTarget | impl/scripts/eval_mutation.py:103 | the same independence for the left-to-right visit of a list of children (`generic_visit`) |
| MutationCatalog.TargetModeCatalog | impl/scripts/eval_mutation.py:416-419 | a fresh mutator aimed at any id records exactly the catalog of discovery mode |
| MutationCatalog.IdsIncrease | impl/scripts/eval_mutation.py:30-172 | visiting never lowers the counter, and the recorded ids strictly increase within (start, end] of the counter; they may skip values |
| MutationCatalog.IdsIncreaseBinOp | impl/scripts/eval_mutation.py:30-103 | for a `BinOp`: its id is taken before its operands are visited, then ids increase through the operands |
| MutationCatalog.IdsIncreaseCompare | impl/scripts/eval_mutation.py:105-155 | for a `Compare`: a single-operator comparison takes its id before its operands; a chained comparison takes none |
| MutationCatalog.IdsAllIncrease | impl/scripts/eval_mutation.py:103 | ids increase across a list of children visited in order |
| MutationCatalog.EntriesInTable | impl/scripts/eval_mutation.py:34-161 | every recorded entry is one of `+`↔`-`, `*`↔`/`, `<`→`>=`, `>`→`<=`, `<=`→`>`, `>=`→`<`, or a non-zero number n → n+1 if n>0 else n−1 (`True` → `2`) |
| MutationCatalog.EntriesAllInTable | impl/scripts/eval_mutation.py:103 | the same table property for a list of children |
| MutationCatalog.RewrittenIff | impl/scripts/eval_mutation.py:45-171 | a visited node comes back changed exactly when an entry recorded under it is selected by the target; `**`, `==`, chained comparisons and zero constants are rebuilt unchanged |
| MutationCatalog.RewrittenIffBinOp | impl/scripts/eval_mutation.py:30-103 | the same if-and-only-if at a `BinOp` |
| MutationCatalog.RewrittenIffCompare | impl/scripts/eval_mutation.py:105-155 | the same if-and-only-if at a `Compare` |
| MutationCatalog.RewrittenAllIff | impl/scripts/eval_mutation.py:103 | the same if-and-only-if for a list of children |
| MutationCatalog.Rediscovery | impl/scripts/eval_mutation.py:30-172 | a property of the model's tree, which the source never exercises: its rewritten nodes carry no `lineno`, so visiting them again would raise. Cataloguing a rewritten node again reaches the same counter and records entries with the same ids, kinds and lines; a selected entry now starts from its mutated token and the others are unchanged |
| MutationCatalog.RediscoveryBinOp | impl/scripts/eval_mutation.py:30-103 | on the model's tree, the re-cataloguing property at a `BinOp` |
| MutationCatalog.RediscoveryCompare | impl/scripts/eval_mutation.py:105-155 | on the model's tree, the re-cataloguing property at a `Compare` |
| MutationCatalog.RediscoverySwappedCompare | impl/scripts/eval_mutation.py:110-153 | on the model's tree, the re-cataloguing property at a single comparison whose operator is in the table |
| MutationCatalog.RediscoveryKeptCompare | impl/scripts/eval_mutation.py:105-108 | on the model's tree, the re-cataloguing property at a comparison that is left as it is |
| MutationCatalog.RediscoveryAll | impl/scripts/eval_mutation.py:103 | on the model's tree, the re-cataloguing property for a list of children |
| MutationCatalog.DiscoverWellFormed | impl/scripts/eval_mutation.py:384-385 | a module's discovery catalog has strictly increasing ids, bounded by the final counter, and holds only table entries |
| MutationCatalog.ApplyChangesIff | impl/scripts/eval_mutation.py:416-419 | target mode changes the tree if and only if the catalog holds an entry with that id |
| MutationCatalog.ApplyRecatalogued | impl/scripts/eval_mutation.py:416-419 | a property of the model's tree (the source never catalogues a mutant): the mutant's catalog is the original catalog with only the targeted entry starting from its mutated token |
| MutationCatalog.VisitAllCons | impl/scripts/eval_mutation.py:103 | visiting `[x] + rest` visits `x` first and then `rest` from the counter `x` left |
| MutationCatalog.VisitAll | impl/scripts/eval_mutation.py:103 | the children come back one for one, visited left to right and threading the counter |
| Text.Find | impl/scripts/eval_mutation.py:244 | `sub in s` and its position: the leftmost occurrence, or none iff the pattern occurs nowhere |
| Text.ReplaceFirst | impl/scripts/eval_mutation.py:245 | `s.replace(pat, repl, 1)`: unchanged when the pattern is absent, else the leftmost occurrence replaced |
| Text.Split | impl/scripts/eval_mutation.py:230 | `s.split(sep)` gives at least one part and no part holds the separator |
| Text.SplitOn | impl/cut/string_utils.py:39 | `str.split(pat)` over leftmost non-overlapping occurrences: there is always at least one piece |
| Text.PiecesFree | impl/cut/string_utils.py:39 | no piece that `split` returns holds the pattern |
| Text.ReplaceAll | impl/cut/string_utils.py:39 | `s.replace(pat, repl)`, with CPython's reading of an empty pattern. `ReplaceAllJoinsPieces` proves that for a non-empty pattern it joins the pieces of `split` with the replacement |
| Text.JoinSplitOn | impl/cut/string_utils.py:39 | joining the pieces with the pattern gives the string back |
| Text.ReplaceAllJoinsPieces | impl/cut/string_utils.py:39 | replacing every occurrence is joining the pieces with the replacement |
| Text.JoinSplit | impl/scripts/eval_mutation.py:230-249 | joining the split parts with the separator gives the string back |
| Text.SplitJoin | impl/scripts/eval_mutation.py:230-249 | splitting separator-free parts joined by that separator gives the parts back |
| Text.Strip | impl/scripts/generate_collab.py:595 | `s.strip()`. `StripKeepsOccurrence` proves it keeps an occurrence whose ends are not whitespace |
| Text.StripKeepsOccurrence | impl/scripts/generate_collab.py:595 | `strip()` cannot remove an occurrence that starts and ends with non-space characters |
| Text.Words | impl/cut/string_utils.py:18 | `s.split()`: non-empty words free of whitespace, the first starting the string when it does not start with whitespace |
| Text.WordsCount | impl/cut/string_utils.py:18 | the number of words is the number of starts of non-whitespace runs |
| Text.Lower | impl/cut/string_utils.py:23 | `lower()` maps each character on its own, keeping the length |
| Text.SortedStrings | impl/scripts/test_quality_validator.py:178 | `sorted(names)` of a set: each name once, in lexicographic order |
| Mutator.SimpleMutator.constructor | impl/scripts/eval_mutation.py:24-28 | a new mutator has an empty catalog, counter 0 and the given target |
| Mutator.SimpleMutator.VisitNode | impl/scripts/eval_mutation.py:30-172 | the node returned, the new counter and the appended entries are those of the functional walk `Visit` |
| Mutator.SimpleMutator.VisitBinOp | impl/scripts/eval_mutation.py:30-103 | `visit_BinOp` against `MutationCatalog.VisitBinOp` |
| Mutator.SimpleMutator.VisitOperands | impl/scripts/eval_mutation.py:46 | the left operand is visited first, the right one from the counter it left, and their entries are appended in that order |
| Mutator.SimpleMutator.VisitCompare | impl/scripts/eval_mutation.py:105-155 | `visit_Compare` against `MutationCatalog.VisitCompare` |
| Mutator.SimpleMutator.RebuildCompare | impl/scripts/eval_mutation.py:155 | the comparison's operands are visited left first, then the comparators in order |
| Mutator.SimpleMutator.VisitConstant | impl/scripts/eval_mutation.py:157-172 | `visit_Constant` against `MutationCatalog.VisitConstant` |
| Mutator.SimpleMutator.GenericVisit | impl/scripts/eval_mutation.py:103 | a loop over the children matches `VisitAll` |
| TextMutation.RegexMutated | impl/scripts/eval_mutation.py:225-249 | the definition of what `_simple_regex_mutation` returns. `SimpleRegexMutation` is proved to compute it; the lemmas below prove it keeps the line count, changes at most the targeted line, and returns the source when nothing applies |
| TextMutation.Mutated | impl/scripts/eval_mutation.py:192-222 | the definition of what `create_mutation` returns: the unparsed tree, or the text fallback on a syntax error or a failing renderer. `CreateMutation`, `ParseErrorKeepsSource`, `FreshCatalog` and `FallbackChangesOneLine` are proved about it |
| TextMutation.Step | impl/scripts/eval_mutation.py:234-247 | one catalog entry applied to the lines keeps the line count |
| TextMutation.SimpleRegexMutation | impl/scripts/eval_mutation.py:225-249 | the loop over the catalog, with its early `break` in target mode, computes `RegexMutated` |
| TextMutation.RegexLinesLength | impl/scripts/eval_mutation.py:230-249 | the fallback never changes the number of lines |
| TextMutation.TargetStopsAtFirstHit | impl/scripts/eval_mutation.py:233-247 | with a target, the result is the input or the effect of the first matching entry alone |
| TextMutation.TargetChangesOneLine | impl/scripts/eval_mutation.py:233-247 | with a target, at most one line changes: the recorded line of an entry with that id that is in range and holds its token. Only the first occurrence of the token is replaced |
| TextMutation.TargetMissLeavesLines | impl/scripts/eval_mutation.py:237-245 | when no entry applies (other id, line out of range, token absent), the lines are unchanged |
| TextMutation.RegexChangesOneLine | impl/scripts/eval_mutation.py:227-249 | with a target, the returned text is the source, or the source with only the recorded line of the first applicable entry, which carries the target id, rewritten |
| TextMutation.RegexUnchanged | impl/scripts/eval_mutation.py:227-249 | the source comes back unchanged when no entry applies; that includes an empty catalog |
| TextMutation.ReplaceFirstNoNewline | impl/scripts/eval_mutation.py:245 | replacing within a line does not introduce a line break |
| TextMutation.RegexLinesNoNewline | impl/scripts/eval_mutation.py:233-247 | the mutated lines stay free of line breaks |
| TextMutation.RegexPreservesLineCount | impl/scripts/eval_mutation.py:230-249 | splitting the mutated text gives as many lines as the source |
| TextMutation.CreateMutation | impl/scripts/eval_mutation.py:192-222 | returns the mutated code and the mutator's catalog, as defined by `Mutated`, and leaves that catalog in the mutator |
| TextMutation.ParseErrorKeepsSource | impl/scripts/eval_mutation.py:214-222 | on a parse error a fresh mutator gives back the source and an empty catalog, without raising |
| TextMutation.FreshCatalog | impl/scripts/eval_mutation.py:195-213 | a fresh mutator on a parsed module returns the discovery catalog, whatever its target |
| TextMutation.FallbackChangesOneLine | impl/scripts/eval_mutation.py:208-211 | without a renderer, target mode changes at most the one recorded line of the targeted entry |
| MutationEval.ExitCode | impl/scripts/eval_mutation.py:252-270 | the code `run_tests` returns: the process's exit code, or −1 when it timed out or could not be started. `Classify` proves −1 is counted as a timeout |
| MutationEval.Classify | impl/scripts/eval_mutation.py:432-444 | timeout iff exit code −1 (including a launch failure), killed iff any other non-zero code, survived iff 0, error iff writing the mutant or starting `run_tests` raised |
| MutationEval.Count | impl/scripts/eval_mutation.py:432-443 | how many outcomes of one kind have been seen; `TallyStep` proves the next outcome adds one to its own count only |
| MutationEval.Tally | impl/scripts/eval_mutation.py:403-444 | `killed`, `survived`, `timeout` and `errors` after the loop. `TallyTotal` proves they add up to the number tested, and `TestMutants` proves the loop ends with these counts |
| MutationEval.TallyTotal | impl/scripts/eval_mutation.py:403-444 | killed + survived + timeout + errors equals the number of mutants tested |
| MutationEval.Score | impl/scripts/eval_mutation.py:456-457 | the score lies in [0, 1]; it is 0 when nothing was killed or survived; it is 1 iff something was killed and nothing survived; it is 0 iff nothing was killed |
| MutationEval.Budget | impl/scripts/eval_mutation.py:398 | the tested mutants are a prefix of the catalog, of length min(max, size) for a non-negative max; a negative max drops that many from the end, as a Python slice does |
| MutationEval.MutantSource | impl/scripts/eval_mutation.py:416-419 | the text of the mutant for one catalogued id: a fresh target-mode `create_mutation` (`FreshCatalog`, `FallbackChangesOneLine`) |
| MutationEval.Catalog | impl/scripts/eval_mutation.py:384-385 | the catalog `create_mutation` discovers: the tree's catalog on a parsed module, and empty on a syntax error (`ParseErrorKeepsSource`) |
| MutationEval.Outcomes | impl/scripts/eval_mutation.py:412-444 | one outcome per tested mutant: the classification of the test run on that mutant's text |
| MutationEval.Artifact.constructor | impl/scripts/eval_mutation.py:408 | an artifact holds its content and possibly a backup |
| MutationEval.Artifact.SaveBackup | impl/scripts/eval_mutation.py:422-423 | the backup becomes a copy of the current content, and the content is unchanged |
| MutationEval.Artifact.RestoreFromBackup | impl/scripts/eval_mutation.py:445-448 | when a backup exists, the content becomes the backup; otherwise nothing changes |
| MutationEval.Artifact.RemoveBackup | impl/scripts/eval_mutation.py:450-453 | the backup is removed and the content is unchanged |
| MutationEval.TallyStep | impl/scripts/eval_mutation.py:432-443 | one more mutant adds one to the counter of its own outcome and leaves the other three as they were |
| MutationEval.TestMutants | impl/scripts/eval_mutation.py:403-453 | with copies and the unlink succeeding (see Left out): after the loop the file holds the original source and no backup remains. This holds after every iteration too, including one whose write raised. The counts are the tally of the outcomes |
| MutationEval.EarlyExitOf | impl/scripts/eval_mutation.py:293-395 | there is no early exit iff the test directory and target exist, valid test files exist, the baseline run did not return −1, the target was read and the catalog is non-empty |
| MutationEval.FinalMetrics | impl/scripts/eval_mutation.py:461-468 | the record carries the counts and the score, `suspicious` 0, and `skipped` = catalog size − tested |
| MutationEval.FinalMetricsAsWritten | impl/scripts/eval_mutation.py:467 | as written, building the record raises `NameError` for `mutations` |
| MutationEval.AsWrittenRaisesExactlyOnMetrics | impl/scripts/eval_mutation.py:455-491 | the function as written raises exactly when the intended function would return a metrics record; otherwise the two agree |
| MutationEval.CalculatorRunAsWritten | impl/scripts/eval_mutation.py:467 | on `impl/cut/calculator.py` with its 11 mutants and the default budget of 20, the code as written raises `NameError`; the intended result has `skipped` 0 |
| MutationEval.Evaluation | impl/scripts/eval_mutation.py:273-491 | the value `eval_mutation` is evidently meant to return: an error record on the first early exit, else the corrected metrics. `EvaluationBounds` and `EvalMutation` are proved about it |
| MutationEval.EvaluationAsWritten | impl/scripts/eval_mutation.py:273-491 | what `eval_mutation` returns as written. `AsWrittenRaisesExactlyOnMetrics` proves it raises `NameError` on exactly the runs where `Evaluation` builds metrics, and agrees with it otherwise |
| MutationEval.EvaluationBounds | impl/scripts/eval_mutation.py:293-491 | an error record is returned exactly on an early exit. A metrics record has: score in [0, 1], `suspicious` 0, killed + survived + timeout ≤ tested, and `skipped` = size − tested, which is 0 when the budget covers the catalog |
| MutationEval.EvalMutation | impl/scripts/eval_mutation.py:273-491 | the report is the intended evaluation of the original content; with copies and the unlink succeeding, the file is left as it was; the backup is gone unless the run ended early |
| CatalogExample.QuietLeaves | impl/cut/calculator.py:4-5 | names, docstrings and `raise` statements record nothing and take no id |
| CatalogExample.ReturnBinOp | impl/cut/calculator.py:6 | `return a op b` takes one id, with an entry only for an operator in the table |
| CatalogExample.ConstantCatalog | impl/cut/calculator.py:37 | a non-zero integer literal takes one id and records its perturbation |
| CatalogExample.CompareCatalog | impl/cut/calculator.py:33 | `x op v` takes an id for the comparison and one more for a non-zero `v` |
| CatalogExample.SmallNumbers | impl/cut/calculator.py:35-38 | the tokens and perturbations of 1 and 2 |
| CatalogExample.DivideCatalog | impl/cut/calculator.py:19-23 | visited after id `k`, `divide` takes ids `k+1` and `k+2`; `b == 0` is not recorded, and `k+2` is `/`→`*` at line 23 (ids 4 and 5 in the module) |
| CatalogExample.NegativeGuardCatalog | impl/cut/calculator.py:33-34 | `if n < 0: raise` records `<`→`>=` as id 7 at line 33; the zero takes no id |
| CatalogExample.BaseTestCatalog | impl/cut/calculator.py:35 | `n == 0 or n == 1` takes ids 8, 9 and 10; only the constant 1 is recorded, as id 10 |
| CatalogExample.BaseCaseCatalog | impl/cut/calculator.py:35-36 | the base case adds `return 1` as id 11 |
| CatalogExample.AssignCatalog | impl/cut/calculator.py:37 | `result = 1` records id 12 |
| CatalogExample.RangeCatalog | impl/cut/calculator.py:38 | `range(2, n + 1)` records ids 13 (2→3), 14 (`+`→`-`) and 15 (1→2) |
| CatalogExample.LoopCatalog | impl/cut/calculator.py:38-39 | the `for` loop's body `result *= i` records nothing (an augmented assignment is not a `BinOp`) |
| CatalogExample.FactorialCatalog | impl/cut/calculator.py:31-40 | `factorial` records ids 7 and 10-15, starting after id 6 |
| CatalogExample.ArithmeticDefsCatalog | impl/cut/calculator.py:4-28 | `add`, `subtract`, `multiply`, `divide` and `power` record ids 1, 2, 3 and 5; ids 4 (`==`) and 6 (`**`) are taken without an entry |
| CatalogExample.DefinitionsCatalog | impl/cut/calculator.py:4-40 | all six definitions, from id 0 to 15 |
| CatalogExample.CalculatorCatalog | impl/cut/calculator.py:1-40 | the module's catalog is exactly the 11 entries with ids 1, 2, 3, 5, 7 and 10-15 |
| TestMerge.Kept | impl/scripts/generate_collab.py:292-316 | the kept functions are no more than the input |
| TestMerge.Codes | impl/scripts/generate_collab.py:316 | the code strings of the kept functions, in order |
| TestMerge.HasNormalizedCode | impl/scripts/generate_collab.py:304-309 | a duplicate is detected iff some kept function has the same whitespace-normalised code |
| TestMerge.AdmitsByParts | impl/scripts/generate_collab.py:297-311 | a function is admitted iff its name is not among the kept names and its normalised code differs from every kept one |
| TestMerge.NamesSnoc | impl/scripts/generate_collab.py:312-313 | keeping a function records its name |
| TestMerge.DeduplicateTestFunctions | impl/scripts/generate_collab.py:278-316 | the loop returns the codes of `Kept(input)` |
| TestMerge.KeptDistinct | impl/scripts/generate_collab.py:297-313 | no two kept functions share a name or normalised code |
| TestMerge.ChosenKeep | impl/scripts/generate_collab.py:311-313 | an admitted function extends the chosen subsequence by its own index |
| TestMerge.ChosenReject | impl/scripts/generate_collab.py:297-309 | a rejected function leaves the chosen subsequence as it was |
| TestMerge.KeptIndices | impl/scripts/generate_collab.py:292-316 | the kept functions are the input at strictly increasing indices (a subsequence in first-occurrence order) |
| TestMerge.KeptStartsWithFirst | impl/scripts/generate_collab.py:295-313 | the first collected function is always kept first |
| TestMerge.KeptSnoc | impl/scripts/generate_collab.py:295-313 | one more input function is kept iff it is admitted by those kept before it |
| TestMerge.RejectedCodeFreesName | impl/scripts/generate_collab.py:311-313 | a function rejected for duplicate code does not reserve its name, so a later same-named function with new code is kept |
| TestMerge.RejectedCodeKeepsNameFree | impl/scripts/generate_collab.py:311-313 | on `test_a: x`, `test_b: x`, `test_b: y` the second is dropped and the third kept |
| TestMerge.CheckImportExists | impl/scripts/generate_collab.py:348-371 | true iff one of the four literal import patterns occurs in the code |
| TestMerge.AnyOccurs | impl/scripts/generate_collab.py:367-371 | the loop over patterns: true iff some pattern occurs |
| TestMerge.ImportLineRecognised | impl/scripts/generate_collab.py:584-586 | code that starts with the prepended import line is recognised as importing the module |
| TestMerge.FirstPatternImpliesThird | impl/scripts/generate_collab.py:360-365 | `from impl.cut import m` also contains `import m` |
| TestMerge.SpaceRunEnd | impl/scripts/generate_collab.py:172 | the end of the run of whitespace matched by `\s*` |
| TestMerge.LastNewline | impl/scripts/generate_collab.py:172 | the last line break within a range, where `\s*\n` can end: `\s*` backtracks to it |
| TestMerge.FirstFence | impl/scripts/generate_collab.py:172 | the first match of the fence regex from a position, lazy body included. `FenceOpening`, `NewlineRun`, `FenceClosing` and `FencedBlockExtracted` are proved about it |
| TestMerge.CodeLines | impl/scripts/generate_collab.py:186-190 | the lines kept when no fence matches. `CodeLinesExactly` proves a line is kept iff it is an input line that is not a marker |
| TestMerge.ExtractedCode | impl/scripts/generate_collab.py:156-192 | the definition of what `extract_python_code_from_response` returns: the first fenced body stripped, else the filtered lines re-joined and stripped. `ExtractPythonCodeFromResponse` and `FencedBlockExtracted` are proved about it |
| TestMerge.ExtractPythonCodeFromResponse | impl/scripts/generate_collab.py:156-192 | the result is `ExtractedCode`: with a fence, the first block's body stripped; otherwise the filtered lines |
| TestMerge.StripMarkdown | impl/scripts/generate_collab.py:183-192 | the lines whose stripped form starts with ```` ``` ````, `---` or `===` are dropped, the rest re-joined and stripped |
| TestMerge.CodeLinesSnoc | impl/scripts/generate_collab.py:186-190 | one more line is kept iff it is not a marker |
| TestMerge.CodeLinesExactly | impl/scripts/generate_collab.py:186-190 | a line is kept iff it is an input line and not a marker |
| TestMerge.FencedBlockExtracted | impl/scripts/generate_collab.py:172-179 | a response that opens with a python (or bare) fence yields that block's body stripped |
| TestMerge.FenceOpening | impl/scripts/generate_collab.py:172 | the optional `python` tag is consumed exactly when present |
| TestMerge.NewlineRun | impl/scripts/generate_collab.py:172 | after a line break followed by a non-space, the body starts right after the line break |
| TestMerge.FenceClosing | impl/scripts/generate_collab.py:172 | the lazy body ends at the first closing fence |
| TestMerge.TopLevelTests | impl/scripts/generate_collab.py:217-220 | the top-level `test_` definitions in order; `TopLevelTestsExactly` proves a statement is selected iff it is one |
| TestMerge.ExtractTestFunctions | impl/scripts/generate_collab.py:195-222 | [] on a syntax error, otherwise the module-level `test_` definitions in order |
| TestMerge.TopLevelTestsExactly | impl/scripts/generate_collab.py:217-220 | a statement is selected iff it is a top-level `test_` function definition |
| TestMerge.Walk | impl/scripts/generate_collab.py:337 | the breadth-first order of `ast.walk` over statements. `WalkStartsWithQueue`, `WalkPermutesDepthFirst`, `WalkOfClass` and `WalkFlat` are proved about it |
| TestMerge.Validated | impl/scripts/generate_collab.py:319-345 | the definition of what `validate_test_code` returns: invalid on a syntax error or when the walk finds no `test_` function, else valid with the names in walk order. `ValidateTestCode`, `ExtractedTestsValidate` and `ClassMethodListedAfterModuleTest` are proved about it |
| TestMerge.ValidateTestCode | impl/scripts/generate_collab.py:319-345 | invalid on a syntax error or when no `test_` definition exists anywhere in the tree; valid otherwise, with the names in the breadth-first order of `ast.walk` |
| TestMerge.WalkStartsWithQueue | impl/scripts/generate_collab.py:337 | `ast.walk` is breadth first: the statements queued are yielded before anything nested in them |
| TestMerge.WalkPermutesDepthFirst | impl/scripts/generate_collab.py:337 | the walk reaches the same statements as a depth-first listing, each as often |
| TestMerge.WalkOfClass | impl/scripts/generate_collab.py:337 | a class holding one method, followed by flat statements: the method is walked after all of them |
| TestMerge.WalkFlat | impl/scripts/generate_collab.py:337 | statements with nothing nested in them are walked in their order |
| TestMerge.ClassMethodListedAfterModuleTest | impl/scripts/generate_collab.py:336-345 | for a class with `test_x` followed by a module-level `test_y`, the message lists `test_y, test_x` |
| TestMerge.TestNamesAppend | impl/scripts/generate_collab.py:337-340 | the names found in a walk of a concatenation are the names of each part |
| TestMerge.TopLevelTestIsWalked | impl/scripts/generate_collab.py:337-340 | the walk finds every top-level test |
| TestMerge.ExtractedTestsValidate | impl/scripts/generate_collab.py:208-222 | code with a top-level test validates |
| TestMerge.NestedTestNotExtracted | impl/scripts/generate_collab.py:199 | a test method inside a class validates but is not extracted |
| TestMerge.DecoratorFlags | impl/scripts/generate_collab.py:255-256 | each line is flagged iff its stripped form starts with `@` |
| TestMerge.Slice | impl/scripts/generate_collab.py:274 | the Python slice `lines[a:b]` is no longer than the lines |
| TestMerge.DecoratorStart | impl/scripts/generate_collab.py:252-259 | the first line of the decorator run above a definition; `ScanUpDecorated` and `DecoratorRun` prove the scan covers exactly the lines above whose stripped text starts with `@` |
| TestMerge.GetFunctionSourceCode | impl/scripts/generate_collab.py:225-275 | a non-empty source segment wins; otherwise the lines from the topmost decorator to `end_lineno` are joined |
| TestMerge.ScanUpDecorated | impl/scripts/generate_collab.py:252-259 | scanning up from a decorator line stops at the first non-decorator; all lines in between are decorators |
| TestMerge.DecoratorRun | impl/scripts/generate_collab.py:252-259 | the start found is the top of the run of decorator lines right above the definition, or the definition itself |
| TestMerge.FirstMissing | impl/scripts/generate_collab.py:146-151 | the first role file that is absent, or none iff all are present |
| TestMerge.DefaultRoleTemplates | impl/scripts/generate_collab.py:110-153 | for fewer than 1 or more than 3 agents, ValueError. Otherwise the result is the first n default roles in fixed order, iff all are present; else FileNotFoundError naming a missing one |
| TestMerge.CollabArgumentCheck | impl/scripts/generate_collab.py:406-409 | accepted iff at least one agent and one test; otherwise ValueError |
| TestMerge.CompetitiveArgumentCheck | impl/scripts/generate_competitive.py:399-404 | accepted iff at least two agents, one test and one of the three competition modes; otherwise ValueError |
| TestMerge.FormatExistingTests | impl/scripts/generate_competitive.py:238-256 | "# No existing tests" for none, otherwise the codes joined by a blank line and stripped |
| TestMerge.AssembledStep | impl/scripts/generate_collab.py:589-593 | each function is appended with a "\n\n" separator except after the last |
| TestMerge.Combined | impl/scripts/generate_collab.py:581-595 | the combined file: an import line when none is present, the codes separated by blank lines, stripped. `CombineTestFunctions`, `CombinedImportsModule`, `PrependedImportSurvives` and `OwnImportSurvives` are proved about it |
| TestMerge.CombineTestFunctions | impl/scripts/generate_collab.py:581-595 | the loop builds `Combined`: the import line if the first function lacks one, then the functions separated by "\n\n", stripped |
| TestMerge.PatternsTrimmed | impl/scripts/generate_collab.py:360-365 | the import patterns start and end with non-space characters, so stripping cannot cut them |
| TestMerge.CombinedImportsModule | impl/scripts/generate_competitive.py:535-546 | for a non-empty module name without trailing whitespace, the combined file imports the module under test |
| TestMerge.PrependedImportSurvives | impl/scripts/generate_collab.py:584-595 | the prepended import survives the final strip |
| TestMerge.OwnImportSurvives | impl/scripts/generate_collab.py:584-595 | an import already in the first function survives the join and strip |
| TestMerge.FirstPartOccurs | impl/scripts/generate_collab.py:589-595 | text in the first part occurs at the same place in the joined file |
| TestMerge.MergedTestFile | impl/scripts/generate_collab.py:557-595 | the merge step of `generate_collab_tests`: an error when nothing was collected, else the kept codes combined (`MergeFailsOnlyWhenEmpty`) |
| TestMerge.MergeFailsOnlyWhenEmpty | impl/scripts/generate_collab.py:557-595 | merging fails iff nothing was collected; otherwise the file combines the kept codes, the first of which is the first collected function |
| TestQuality.AssertCountPositive | impl/scripts/test_quality_validator.py:114-117 | a test's assertion count is positive iff it has an assert |
| TestQuality.Tests | impl/scripts/test_quality_validator.py:97-100 | a function is analysed iff it is in the module and named `test_` |
| TestQuality.CutCalls | impl/scripts/test_quality_validator.py:138-140 | only names of functions in the code under test are tracked |
| TestQuality.Tested | impl/scripts/test_quality_validator.py:137-140 | `functions_tested` is a subset of the functions under test |
| TestQuality.ExtractCutFunctions | impl/scripts/test_quality_validator.py:26-40 | the function names of the code under test, or none when it is missing or does not parse |
| TestQuality.TestQualityValidator.constructor | impl/scripts/test_quality_validator.py:14-24 | the validator keeps the module name and the extracted function names |
| TestQuality.TestQualityValidator.ValidateTestQuality | impl/scripts/test_quality_validator.py:42-209 | the validity, warnings and metrics are those of `Quality` |
| TestQuality.TestQualityValidator.AnalyseFunctions | impl/scripts/test_quality_validator.py:96-140 | the loop selects the tests and accumulates the per-test metrics and warnings |
| TestQuality.TestQualityValidator.ScanImports | impl/scripts/test_quality_validator.py:75-87 | the import is found iff some `from` import names the module (substring of its module, or an alias) or some `import` has the alias |
| TestQuality.TestQualityValidator.AnalyseTest | impl/scripts/test_quality_validator.py:101-140 | one test adds 1 test, its docstring, its assertions, its empty and unasserted flags and its tested functions. Its warnings are `TestWarningsOf` |
| TestQuality.TestQualityValidator.TrackTested | impl/scripts/test_quality_validator.py:138-140 | adds exactly the called names that are functions under test |
| TestQuality.TestQualityValidator.WalkTest | impl/scripts/test_quality_validator.py:110-123 | the walk reports whether an assert and a call occur, the assert count and the called names |
| TestQuality.TestQualityValidator.FindDuplicates | impl/scripts/test_quality_validator.py:146-166 | the loop lists the tests whose signature was seen before |
| TestQuality.TestQualityValidator.SignatureParts | impl/scripts/test_quality_validator.py:149-160 | the calls by plain name and the compare and call assertion kinds of a walk |
| TestQuality.TestQualityValidator.ScoreQuality | impl/scripts/test_quality_validator.py:183-200 | the sum of the seven score terms |
| TestQuality.TestQualityValidator.SuggestImprovements | impl/scripts/test_quality_validator.py:211-246 | the suggestions in order, each under its own condition |
| TestQuality.AnalysedStep | impl/scripts/test_quality_validator.py:101-140 | the metrics over one more test are the previous metrics plus that test's contribution |
| TestQuality.WalkStep | impl/scripts/test_quality_validator.py:114-123 | scanning one more node sets the assert or call flag by its kind |
| TestQuality.Quality | impl/scripts/test_quality_validator.py:42-209 | the definition of what `validate_test_quality` returns. `ValidateTestQuality` is proved to compute it; `ValidityCases`, `RejectedInputs`, `ScoreBounds` and the warning lemmas are proved about it |
| TestQuality.QualityScore | impl/scripts/test_quality_validator.py:183-200 | the sum of the seven score terms; `ScoreBounds` and `HalfDocumentedNeutral` are proved about it |
| TestQuality.ValidityCases | impl/scripts/test_quality_validator.py:207 | valid iff the code parses, has a test, and in strict mode has no warning |
| TestQuality.RejectedInputs | impl/scripts/test_quality_validator.py:69-72 | a syntax error gives (false, [syntax message], initial metrics); parsed code without tests gives (false, ["No test functions found"]) and no score |
| TestQuality.ScoreBounds | impl/scripts/test_quality_validator.py:183-202 | once scored, the score lies in [2, 9] and the percentage in [20, 90], since `functions_tested` ⊆ the functions under test |
| TestQuality.RatioAtMostOne | impl/scripts/test_quality_validator.py:195 | the coverage ratio is at most 1 |
| TestQuality.TestWarningsContain | impl/scripts/test_quality_validator.py:125-135 | each test's warnings appear among the module's |
| TestQuality.EmptyTestsContain | impl/scripts/test_quality_validator.py:125-126 | a test without a call is listed as empty |
| TestQuality.WithoutAssertionsContain | impl/scripts/test_quality_validator.py:129-130 | a test without an assert is listed as unasserted |
| TestQuality.LenientNoAssertionWarnings | impl/scripts/test_quality_validator.py:131-135 | in lenient mode no missing-assertion warning is issued |
| TestQuality.EmptyTestReported | impl/scripts/test_quality_validator.py:125-127 | a test without a call is listed in `empty_tests` and warned about in both modes |
| TestQuality.UnassertedTestReported | impl/scripts/test_quality_validator.py:129-135 | a test without an assert is listed in `tests_without_assertions`, and warned about only in strict mode |
| TestQuality.Duplicates | impl/scripts/test_quality_validator.py:146-166 | the tests whose signature was already seen. `DuplicateMembership` and `DuplicateCount` are proved about it |
| TestQuality.DuplicateMembership | impl/scripts/test_quality_validator.py:146-166 | a name is flagged iff some test of that name has a signature equal to an earlier test's; the first holder of a signature is not flagged |
| TestQuality.SignaturesSnoc | impl/scripts/test_quality_validator.py:162-166 | the signatures seen grow by the last test's |
| TestQuality.SignaturesShrink | impl/scripts/test_quality_validator.py:162-166 | one direction of `SignaturesSnoc` |
| TestQuality.SignaturesGrow | impl/scripts/test_quality_validator.py:162-166 | the other direction of `SignaturesSnoc` |
| TestQuality.SeenBeforeLast | impl/scripts/test_quality_validator.py:163 | the last test is a duplicate iff its signature is among the earlier ones |
| TestQuality.DuplicateCount | impl/scripts/test_quality_validator.py:146-166 | flagged tests + distinct signatures = number of tests |
| TestQuality.AssertionTotals | impl/scripts/test_quality_validator.py:114-130 | `num_assertions` is at least the number of asserted tests, and 0 iff every test is unasserted |
| TestQuality.Suggestions | impl/scripts/test_quality_validator.py:211-246 | the suggestions in the source's order. `SuggestionsMember` and `SuggestionConditions` prove each appears iff its condition holds |
| TestQuality.PickMember | impl/scripts/test_quality_validator.py:215-244 | a conditional suggestion is present iff its condition holds |
| TestQuality.SuggestionsMember | impl/scripts/test_quality_validator.py:211-246 | a suggestion is made iff it is one of the seven under its condition |
| TestQuality.SuggestionConditions | impl/scripts/test_quality_validator.py:215-244 | each of the seven suggestions appears iff its condition holds |
| TestQuality.HalfDocumentedNeutral | impl/scripts/test_quality_validator.py:192-193 | at a docstring ratio of exactly 0.5, neither the bonus (> 0.5) nor the suggestion (< 0.5, lines 243-244) applies |
| Config.Merge | impl/scripts/experiment_config.py:66 | `dict.update`: a dictionary's keys win over the section's, an empty string or list changes nothing, and any other value fails |
| Config.Lookup | impl/scripts/experiment_config.py:77-78 | on a dictionary, `key in d` followed by `d[key]` is the map lookup |
| Config.MergeNested | impl/scripts/experiment_config.py:77-93 | one nested section's update, skipped when the key is absent. `MergeNestedExtends` proves no key is lost |
| Config.UpdateKey | impl/scripts/experiment_config.py:64-105 | the block of `from_dict` for one top-level key. `UpdateKeyExtends`, `AbsentKey` and `AdoptKey` are proved about it |
| Config.FromData | impl/scripts/experiment_config.py:60-107 | the definition of what `from_dict` returns: the eight updates in order, the first failure winning. `FromDict`, `RoundTrip`, `UnknownKeysIgnored` and `FromDataExtends` are proved about it |
| Config.FailureStops | impl/scripts/experiment_config.py:62-107 | the first failing update decides the result |
| Config.FromDict | impl/scripts/experiment_config.py:60-107 | the loop over the top-level keys computes `FromData` |
| Config.UpdateSection | impl/scripts/experiment_config.py:64-105 | one block of `from_dict` computes `UpdateKey` |
| Config.ToDict | impl/scripts/experiment_config.py:109-128 | the dictionary has exactly the eight top-level keys and the two nested sections with three keys each |
| Config.Validate | impl/scripts/experiment_config.py:130-189 | the loop collects `Issues(c)`, in the source's order |
| Config.CheckFields | impl/scripts/experiment_config.py:139-145 | the `cut_module` and `num_tests` checks report `FieldIssues(c)`, in order |
| Config.CheckModes | impl/scripts/experiment_config.py:148-156 | the loop over the three generation modes |
| Config.CheckGeneration | impl/scripts/experiment_config.py:158-168 | the `num_agents` and `competition_mode` checks, each only when its mode is enabled, report `GenerationIssues(c)` |
| Config.CheckPhases | impl/scripts/experiment_config.py:171-177 | the loop over the three evaluation phases |
| Config.CheckTail | impl/scripts/experiment_config.py:179-187 | the diversity `metric` check (only when enabled) and the logging `level` check report `TailIssues(c)` |
| Config.ParseInt | impl/scripts/experiment_config.py:257-261 | `int(s)` over ASCII text: surrounding whitespace, an optional sign and underscore-separated digit groups, `None` where Python raises; `ParseIntRoundTrip` and `NonIntegerNumTestsIgnored` are proved with it |
| Config.ParseIntRoundTrip | impl/scripts/experiment_config.py:257-261 | `int(str(i)) == i` for every integer: an override written by `str` is read back unchanged |
| Config.Overridden | impl/scripts/experiment_config.py:237-269 | the data after the environment overrides. `ApplyEnvOverrides` computes it; `ExperimentIdCreatesSection` and `OverridesFailOnlyOnBadExperiment` are proved about it |
| Config.ApplyEnvOverrides | impl/scripts/experiment_config.py:237-269 | the overrides computed by `Overridden` |
| Config.IssueLines | impl/scripts/experiment_config.py:232 | one message line per issue |
| Config.Loading | impl/scripts/experiment_config.py:192-234 | the definition of what `load_config` returns. `LoadConfig` computes it; `LoadRejectsIffIssues` and `LoadWithoutPath` are proved about it |
| Config.LoadConfig | impl/scripts/experiment_config.py:192-234 | the outcome `Loading`: defaults without a path, FileNotFound, invalid YAML as ValueError, and otherwise the overridden, merged, validated configuration |
| Config.ModesIssuesOfThree | impl/scripts/experiment_config.py:148-156 | the mode issues are those of single, collab and competitive, in order |
| Config.PhasesIssuesOfThree | impl/scripts/experiment_config.py:171-177 | an issue for each phase whose `enabled` is not a bool |
| Config.DefaultValid | impl/scripts/experiment_config.py:17-57 | the default configuration validates with no errors |
| Config.ModesIssuesKinds | impl/scripts/experiment_config.py:153-156 | the mode loop only reports `enabled` and `num_tests` issues |
| Config.PhasesIssuesKinds | impl/scripts/experiment_config.py:176-177 | the phase loop only reports `enabled` issues |
| Config.Issues | impl/scripts/experiment_config.py:130-189 | the issues `validate` reports, in its order. `Validate` is proved to compute it; `DefaultValid`, `IssuesMember` and the condition lemmas are proved about it |
| Config.IssuesMember | impl/scripts/experiment_config.py:130-189 | any other issue comes from the field, generation or tail checks |
| Config.FieldIssueConditions | impl/scripts/experiment_config.py:140-145 | the cut_module error iff it is not a non-empty string; the num_tests error iff it is not an integer ≥ 1 (bool counts as int) |
| Config.GenerationIssueConditions | impl/scripts/experiment_config.py:159-168 | the num_agents error iff collab is enabled and its agents are not a positive int. The competition-mode error iff competitive is enabled and its mode is outside the three |
| Config.TailIssueConditions | impl/scripts/experiment_config.py:180-187 | the metric error iff diversity is enabled with a metric outside the three; the logging error iff the level is outside the four |
| Config.EmptyCutModuleReported | impl/scripts/experiment_config.py:140-141 | an empty cut_module yields an error mentioning `cut_module` |
| Config.MergeCovering | impl/scripts/experiment_config.py:66-105 | an update that covers every default key replaces the section |
| Config.ModeIssuesMember | impl/scripts/experiment_config.py:148-156 | a mode issue is reported iff the mode loop reports it |
| Config.ModeIssuesNamed | impl/scripts/experiment_config.py:154-156 | each mode issue names the mode it concerns |
| Config.ModeIssuesOwn | impl/scripts/experiment_config.py:148-156 | an issue named for one mode comes from that mode's checks |
| Config.ModeIssueConditions | impl/scripts/experiment_config.py:153-156 | per mode: the `enabled` error iff `enabled` is not a bool; the `num_tests` error iff `enabled` is truthy and `num_tests` is not an int |
| Config.MergeNestedExtends | impl/scripts/experiment_config.py:77-93 | merging a nested section never loses a key |
| Config.UpdateKeyExtends | impl/scripts/experiment_config.py:64-105 | an update only adds keys: a configuration whose sections hold the keys of another still does after it |
| Config.UptoExtends | impl/scripts/experiment_config.py:62-105 | the partial updates keep every default key |
| Config.FromDataExtends | impl/scripts/experiment_config.py:60-107 | a built configuration has every default key in each section |
| Config.UptoStep | impl/scripts/experiment_config.py:62-107 | the next key's update extends the partial result |
| Config.AbsentKey | impl/scripts/experiment_config.py:65-105 | a key the data lacks changes nothing |
| Config.GenerationRoundTrip | impl/scripts/experiment_config.py:115-119 | merging the exported generation section into a config with fewer keys reproduces it |
| Config.EvaluationRoundTrip | impl/scripts/experiment_config.py:120-124 | merging the exported evaluation section into a config with fewer keys reproduces it |
| Config.AdoptKey | impl/scripts/experiment_config.py:64-105 | updating a key from the exported data adopts that key's field |
| Config.AdoptUptoUntouched | impl/scripts/experiment_config.py:64-105 | keys not yet updated still hold their defaults |
| Config.AdoptsEach | impl/scripts/experiment_config.py:60-128 | for a configuration whose sections hold the default keys, each update from its exported data, made after the ones before it, adopts its section |
| Config.UptoAdopts | impl/scripts/experiment_config.py:60-128 | when each update adopts its section, the first n updates adopt the first n sections |
| Config.AdoptAll | impl/scripts/experiment_config.py:109-128 | adopting every field reproduces the configuration |
| Config.RoundTrip | impl/scripts/experiment_config.py:60-128 | `from_dict(to_dict(c))` reproduces any configuration that has the default keys |
| Config.ReloadExported | impl/scripts/experiment_config.py:60-128 | exporting and reloading a built configuration gives it back |
| Config.Known | impl/scripts/experiment_config.py:64-105 | the data restricted to the eight keys `from_dict` reads |
| Config.UptoKnown | impl/scripts/experiment_config.py:62-105 | the partial updates ignore every other key |
| Config.UnknownKeysIgnored | impl/scripts/experiment_config.py:60-107 | unknown top-level keys do not affect the result |
| Config.MutationSectionIgnored | impl/scripts/experiment_config.py:91 | an evaluation "mutation" section is ignored |
| Config.PartialSectionKeepsDefaults | impl/scripts/experiment_config.py:75-82 | `cut_module=test_module`, `num_tests=20`, `generation.single.enabled=False` give the defaults elsewhere, with `single.num_tests` still 10 |
| Config.PartialHead | impl/scripts/experiment_config.py:64-72 | the first three updates of that data |
| Config.SingleOnlyMerge | impl/scripts/experiment_config.py:77-82 | a generation update naming only `single` merges only that section |
| Config.GenerationUpdate | impl/scripts/experiment_config.py:75-82 | a successful generation merge becomes the generation field |
| Config.PartialGeneration | impl/scripts/experiment_config.py:75-82 | the generation merge of that data |
| Config.SingleDisabled | impl/scripts/experiment_config.py:20 | the single section with `enabled` overridden keeps `num_tests` 10 |
| Config.PartialTail | impl/scripts/experiment_config.py:84-107 | the remaining keys of that data change nothing |
| Config.PartialUntouched | impl/scripts/experiment_config.py:84-105 | data naming none of `evaluation`, `aggregation`, `output`, `logging`: their updates change nothing |
| Config.PartialSectionValid | impl/scripts/experiment_config.py:130-189 | that configuration validates |
| Config.NonIntegerNumTestsIgnored | impl/scripts/experiment_config.py:257-261 | an `EXPERIMENT_NUM_TESTS` that `int()` rejects leaves `num_tests` as it was |
| Config.ExperimentIdCreatesSection | impl/scripts/experiment_config.py:264-267 | `EXPERIMENT_ID` creates the experiment section when it is missing |
| Config.OverridesFailOnlyOnBadExperiment | impl/scripts/experiment_config.py:253-269 | the overrides fail iff `EXPERIMENT_ID` is set and the existing experiment entry is not a dictionary |
| Config.LoadRejectsIffIssues | impl/scripts/experiment_config.py:229-234 | loading raises ValueError iff `validate` returns errors, with the joined message; otherwise it returns the configuration |
| Config.LoadWithoutPath | impl/scripts/experiment_config.py:207-209 | without a path the defaults are returned, and they are valid |
| DataStructures.StackPop | impl/cut/data_structures.py:15-19 | IndexError iff the stack is empty; otherwise the last item and the rest |
| DataStructures.StackPeek | impl/cut/data_structures.py:21-25 | IndexError iff empty; otherwise the item `pop` would return |
| DataStructures.PushThenPop | impl/cut/data_structures.py:11-19 | push then pop returns the pushed item and the previous contents |
| DataStructures.StackLastIn | impl/cut/data_structures.py:11-19 | after pushing several items, pop returns the last pushed |
| DataStructures.Stack.constructor | impl/cut/data_structures.py:7-9 | a new stack is empty |
| DataStructures.Stack.Push | impl/cut/data_structures.py:11-13 | appends the item |
| DataStructures.Stack.Pop | impl/cut/data_structures.py:15-19 | IndexError and no change when empty; otherwise returns the last item and removes it |
| DataStructures.Stack.Peek | impl/cut/data_structures.py:21-25 | IndexError when empty, otherwise the top item; the stack is unchanged |
| DataStructures.Stack.IsEmpty | impl/cut/data_structures.py:27-29 | true iff the size is 0 |
| DataStructures.Stack.Size | impl/cut/data_structures.py:31-33 | the number of items held; `IsEmpty` is proved to hold iff it is 0 |
| DataStructures.QueueDequeue | impl/cut/data_structures.py:47-51 | IndexError iff empty; otherwise the first item and the rest |
| DataStructures.QueueFront | impl/cut/data_structures.py:53-57 | IndexError iff empty; otherwise the item `dequeue` would return |
| DataStructures.QueueFirstOut | impl/cut/data_structures.py:43-51 | FIFO: items enqueued later do not change which item leaves first |
| DataStructures.EnqueueOnEmpty | impl/cut/data_structures.py:43-51 | the first enqueued item leaves first |
| DataStructures.Queue.constructor | impl/cut/data_structures.py:39-41 | a new queue is empty |
| DataStructures.Queue.Enqueue | impl/cut/data_structures.py:43-45 | appends the item |
| DataStructures.Queue.Dequeue | impl/cut/data_structures.py:47-51 | IndexError and no change when empty; otherwise returns the front item and removes it |
| DataStructures.Queue.Front | impl/cut/data_structures.py:53-57 | IndexError when empty, otherwise the front item; the queue is unchanged |
| DataStructures.Queue.IsEmpty | impl/cut/data_structures.py:59-61 | true iff the size is 0 |
| DataStructures.Queue.Size | impl/cut/data_structures.py:63-65 | the number of items held; `IsEmpty` is proved to hold iff it is 0 |
| DataStructures.Largest | impl/cut/data_structures.py:72 | an element no smaller than any other |
| DataStructures.Smallest | impl/cut/data_structures.py:79 | an element no larger than any other |
| DataStructures.FindMax | impl/cut/data_structures.py:68-72 | ValueError iff empty; otherwise an element that bounds all others from above |
| DataStructures.FindMin | impl/cut/data_structures.py:75-79 | ValueError iff empty; otherwise an element that bounds all others from below |
| DataStructures.MinAtMostMax | impl/cut/data_structures.py:68-79 | min ≤ max, with equality iff all elements are equal |
| DataStructures.ReverseList | impl/cut/data_structures.py:82-84 | same length, and reversing the result gives the input back |
| DataStructures.CountOccurrences | impl/cut/data_structures.py:118-120 | the number of occurrences, at most the length |
| DataStructures.Dedup | impl/cut/data_structures.py:87-95 | the result has exactly the elements of the input |
| DataStructures.RemoveDuplicates | impl/cut/data_structures.py:87-95 | the loop with its `seen` set computes `Dedup` |
| DataStructures.DedupDistinct | impl/cut/data_structures.py:91-94 | the result has no repeated element |
| DataStructures.First | impl/cut/data_structures.py:91 | the index of an element's first occurrence |
| DataStructures.FirstInPrefix | impl/cut/data_structures.py:91 | a first occurrence within a prefix stays first |
| DataStructures.DedupFirstOccurrenceOrder | impl/cut/data_structures.py:87-95 | the result lists the elements in the order of their first occurrences |
| DataStructures.NewLastOrder | impl/cut/data_structures.py:91-94 | a new last element keeps the first-occurrence order |
| DataStructures.MergeSortedLists | impl/cut/data_structures.py:98-115 | the two-index loop computes `Merged`, which takes list1's head on ties |
| DataStructures.Merged | impl/cut/data_structures.py:98-115 | the merge of two lists, list1 first on ties. `MergeSortedLists` computes it; `MergedPermutation`, `MergedElements` and `MergedSorted` are proved about it |
| DataStructures.MergedPermutation | impl/cut/data_structures.py:98-115 | the merge is a permutation of `list1 + list2`, for any inputs |
| DataStructures.MergedElements | impl/cut/data_structures.py:98-115 | each merged element comes from one of the lists |
| DataStructures.ConsSorted | impl/cut/data_structures.py:104-109 | an element no larger than a sorted rest, prepended, keeps it sorted |
| DataStructures.MergedSorted | impl/cut/data_structures.py:98-115 | sorted inputs give a sorted merge |
| DataStructures.FlattenNestedList | impl/cut/data_structures.py:123-131 | the loop computes `Flattened` |
| DataStructures.Flattened | impl/cut/data_structures.py:123-131 | the list with one level of sublists spliced in. `FlattenNestedList` computes it; `FlattenedAppend`, `FlattenOneLevel` and `FlattenedNoSublists` are proved about it |
| DataStructures.FlattenedAppend | impl/cut/data_structures.py:127-130 | flattening distributes over concatenation |
| DataStructures.FlattenOneLevel | impl/cut/data_structures.py:127-130 | exactly one level is spliced: a sublist's items come out as they are, nested lists included |
| DataStructures.FlattenedNoSublists | impl/cut/data_structures.py:123-131 | a list without sublists is unchanged |
| StringUtils.ReverseString | impl/cut/string_utils.py:4-6 | same length, with the character at i taken from position len−1−i |
| StringUtils.ReverseStringInvolution | impl/cut/string_utils.py:4-6 | reversing twice gives the string back |
| StringUtils.RunStartsAllSpace | impl/cut/string_utils.py:16-17 | a whitespace-only string starts no word |
| StringUtils.CountWords | impl/cut/string_utils.py:14-18 | the number of maximal non-whitespace runs, and 0 for whitespace-only input |
| StringUtils.RemoveWhitespace | impl/cut/string_utils.py:27-29 | the non-whitespace characters, in order |
| StringUtils.NonSpaceAppend | impl/cut/string_utils.py:29 | removing whitespace distributes over concatenation |
| StringUtils.RemoveWhitespaceCounts | impl/cut/string_utils.py:27-29 | whitespace is gone and each other character keeps its count |
| StringUtils.IsPalindrome | impl/cut/string_utils.py:21-24 | true iff the lowercased, whitespace-free string equals its reverse |
| StringUtils.ReversedAppend | impl/cut/string_utils.py:6 | reversal of a concatenation |
| StringUtils.NonSpaceReversed | impl/cut/string_utils.py:23 | removing whitespace commutes with reversal |
| StringUtils.PalindromeOfReverse | impl/cut/string_utils.py:21-24 | a string is a palindrome iff its reverse is |
| StringUtils.CountCharacters | impl/cut/string_utils.py:32-36 | ValueError iff the argument is not one character; otherwise the number of occurrences |
| StringUtils.ReplaceSubstring | impl/cut/string_utils.py:37-39 | unchanged when the pattern does not occur or equals the replacement |
| StringUtils.ReplaceSubstringJoinsPieces | impl/cut/string_utils.py:37-39 | for a non-empty pattern, the result is the pieces of `s.split(pattern)` joined by the replacement, and joining them by the pattern gives `s` back |
| StringUtils.DropAppend | impl/cut/string_utils.py:53-54 | dropping a character distributes over concatenation |
| StringUtils.DropAbsent | impl/cut/string_utils.py:53-54 | dropping an absent character changes nothing |
| StringUtils.ReplaceSpaceDrops | impl/cut/string_utils.py:53-54 | `replace(" ", "")` drops exactly the space characters |
| StringUtils.DropCounts | impl/cut/string_utils.py:53-54 | dropping a character zeroes its count and keeps the others |
| StringUtils.AnagramKeyCounts | impl/cut/string_utils.py:53-54 | the cleaned string has no spaces and the lowercased counts of all else |
| StringUtils.Insert | impl/cut/string_utils.py:55 | insertion adds one occurrence |
| StringUtils.InsertSorted | impl/cut/string_utils.py:55 | insertion keeps a string sorted |
| StringUtils.Sort | impl/cut/string_utils.py:55 | `sorted`: a sorted permutation |
| StringUtils.SortedHead | impl/cut/string_utils.py:55 | two sorted permutations of each other start alike |
| StringUtils.Tail | impl/cut/string_utils.py:55 | dropping the head of a sorted string keeps it sorted |
| StringUtils.SortedUnique | impl/cut/string_utils.py:55 | two sorted strings with the same characters are equal, so comparing sorted strings is comparing counts |
| StringUtils.IsAnagram | impl/cut/string_utils.py:51-55 | true iff the two cleaned strings have the same character counts |
| StringUtils.IsAnagramSymmetric | impl/cut/string_utils.py:51-55 | anagram-ness is symmetric |
| StringUtils.SpacedKey | impl/cut/string_utils.py:53 | "a b" cleans to "ab" |
| StringUtils.PlainKey | impl/cut/string_utils.py:53 | "ab" cleans to itself |
| StringUtils.TabKey | impl/cut/string_utils.py:53 | a tab is kept |
| StringUtils.OnlySpacesIgnored | impl/cut/string_utils.py:51-55 | "a b" is an anagram of "ab", but "a\tb" is not: only the space character is removed |
| StringUtils.SliceEnd | impl/cut/string_utils.py:64 | the end index of a Python slice, with a negative bound counted from the end |
| StringUtils.Truncate | impl/cut/string_utils.py:58-64 | ValueError iff the limit is negative; the string itself if it fits; otherwise it is `s[:max_length - len(suffix)] + suffix`, with Python's reading of a negative slice end. Its length is the limit when the suffix fits, and the quirk's longer length otherwise |
| StringUtils.TruncateLongSuffix | impl/cut/string_utils.py:64 | `truncate("abcdefgh", 2, "...")` is "abcdefg...", 10 characters long |
| Calculator.Fact | impl/cut/calculator.py:31-40 | n! is at least 1 |
| Calculator.Factorial | impl/cut/calculator.py:31-40 | ValueError iff n < 0; otherwise n!, with the base cases 0 and 1 and the loop over 2..n |
| Calculator.FactorialValues | impl/cut/calculator.py:35-40 | 0! = 1! = 1 and (n+1)! = (n+1)·n! |
| Calculator.FactMultiple | impl/cut/calculator.py:37-40 | n! is a multiple of every k in 1..n |
| Calculator.FactMonotone | impl/cut/calculator.py:37-40 | n! never decreases |
| Calculator.Divide | impl/cut/calculator.py:19-23 | ValueError iff b = 0; otherwise the quotient, whose product with b is a |

## Left out

- The parser and the unparser. `ast.parse` of the source becomes a parsed tree, or `None` for a syntax error. `ast.unparse` and `astor.to_source` become a `Renderer` parameter or `NoRenderer`. No model states the concrete text of regenerated source.
- Parts of the source that are cut down in the model:
  - **The syntax tree.** Only `BinOp`, `Compare` and `Constant` are modelled; every other node is a list of children in field order.
  - **`visit_Num`.** It is Python < 3.8 only.
  - **Float constants.** They are not modelled; `True` is modelled as the integer 1.
  - **Unreachable branches.** The `Eq`/`NotEq` branches of `visit_BinOp` cannot be represented, since `ast.operator` has no such members.
- MutationEval.TestMutants: `shutil.copy2` and `unlink` always succeed in the model. In the source, a failing backup copy (line 423) or restore copy (line 448) raises out of the loop. The outer `finally` then deletes the backup and the target may stay mutated. So "the file is left as it was" holds only for file operations that succeed; this also applies to `MutationEval.EvalMutation`.
- `run_tests`, `subprocess` and pytest: an oracle from the mutant's number and text to an `Attempt`.
- The file-system checks of `eval_mutation` become fields of an `Environment`. The directory and target checks, `validate_test_directory`, the baseline run and the read are all such fields.
- JSON output, `print`, `run_id` and the unused `self.mutation_id` are not modelled.
- The agent loops of `generate_collab_tests` and `generate_competitive_tests` are not modelled:
  - language-model calls;
  - prompt formatting;
  - role-template reading;
  - module loading;
  - output directories, wrapper files and metadata.
- The collaboration generator imports `call_llm` from `impl/src/llm.py`, which defines only `call_local_llm`. The helpers are modelled on their own.
- `successful_agents == 0` is not modelled separately: it can only hold when nothing was collected, and that case fails first.
- `get_function_source_code`'s estimate of a missing `end_lineno` from the nodes' lines is not modelled. The fallback is given `end_lineno`, as the parser on Python 3.8+ provides it.
- Custom role directories (`--prompt-roles`) are not modelled. Role paths are file names, and the existing files are a set.
- TestMerge.ValidateTestCode: `ast.walk` is modelled on statements only. A definition can only nest under statements, except handlers and match cases, which are all `Stmt` values here, so the order of the definitions is that of the full walk. The walk itself is `ast`'s library code, given as the function `Walk` rather than a loop.
- `TestQuality` on parsed test modules: the validator is given the imports, and for each function its name, whether it has a docstring, and the nodes of its walk. The syntax-error text is a parameter, and the quality figures are exact reals rather than floats.
- `TestQuality.TestQualityValidator.ValidateTestQuality` does not model the walk of the source's `ast.walk`. Tests nested in classes or functions are in the given function list in walk order.
- `Text.Lower` folds ASCII letters only; Python's `str.lower` covers Unicode.
- `Config` models YAML values as a `Value` datatype. It leaves out:
  - `dict.update` with a non-empty iterable of pairs (a list or tuple of pairs, such as two-element lists or two-character strings), which Python accepts and the model rejects. Only the empty string and the empty list are modelled as no-ops;
  - top-level YAML values other than mappings;
  - Unicode digits and non-decimal forms in `int()`.
- `Config.ToDict` returns new maps rather than the config's own dictionaries, so the aliasing in `to_dict` is not modelled.
- `save_config`, `get_default_config_path` and YAML parsing are left out: they are file access.
- `DataStructures`: `find_max`, `find_min` and `merge_sorted_lists` are modelled on integers. Mixed element types, NaN and the identity of equal elements do not exist there, so "list1 first on ties" is built into `Merged` rather than stated as a separate lemma.
- `DataStructures.FlattenNestedList` only splits `list` from other values: Python's `isinstance(item, list)` also accepts list subclasses.
- `string_utils.capitalize_words` and `extract_numbers` are left out: they depend on `str.title` Unicode rules and on `float` parsing.
- `calculator.add`, `subtract`, `multiply` and `power` are left out, being float arithmetic.
- Calculator.Divide: the quotient is exact real division rather than IEEE floats.
- MutationEval.Score: the score is exact real division, not IEEE double division. Python rounds `killed / total_tested`, so its score can be 1.0 while a mutant survived: for example `10**17 / (10**17 + 1)`. The contract "1 iff something was killed and nothing survived" holds of the exact quotient only.
- Config.Merge: every rejected update is reported as `TypeError(path)`, so the exception class is not modelled. Python raises `TypeError` for a value that is not iterable. It raises `ValueError` for a non-empty string and for elements of the wrong length, and `TypeError` for elements that are not sequences.
- StringUtils.Truncate: when the suffix is longer than the limit, the result is longer than the limit. This is Python's negative slice bound, kept as written; the contract states that length rather than a bound of `max_length`.

## Findings

| source | as written | input that shows it | evidently intended | confidence | as-written member | corrected member |
|---|---|---|---|---|---|---|
| impl/scripts/eval_mutation.py:467 | `"skipped": len(mutations) - len(mutations_to_test)` names `mutations`, which is not defined in `eval_mutation`. So every run that reaches the metrics raises `NameError` after testing the mutants | `impl/cut/calculator.py` with a test directory whose baseline run does not return −1, and the default `max_mutations=20` | `len(all_mutations) - len(mutations_to_test)`, the number of catalogued mutants not tested | not executed | MutationEval.FinalMetricsAsWritten | MutationEval.FinalMetrics |

More about this finding:

- `MutationEval.EvaluationAsWritten` and `MutationEval.AsWrittenRaisesExactlyOnMetrics` show that the code as written raises on exactly the runs the intended code completes.
- `MutationEval.CalculatorRunAsWritten` exhibits the failure on the calculator module.
- `MutationEval.Evaluation`, `MutationEval.EvaluationBounds` and `MutationEval.EvalMutation` use the corrected record.
