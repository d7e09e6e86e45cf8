# Verified model of the pipeline's deterministic skeleton

The repository runs a seven-phase, multi-agent machine-learning pipeline. LLM replies, the training
scripts they contain, and the timing of worker threads are unpredictable; everything around them is
deterministic code that is supposed to hold its promises whatever they do. This project models that
code in Dafny and proves the promises for every reply, every script and every interleaving. Oracles
are ordinary parameters: streams (`nat -> Turn`, `nat -> Cycle`, `nat -> Outside`), arbitrary action or
event sequences, and an arbitrary JSON parser.

Pure code is modelled by functions and lemmas. Code that updates objects, dictionaries, queues or files
is modelled by methods and classes, each proved equal to a specification function or predicate, about
which the lemmas then speak.

| file | models |
|---|---|
| `Pipeline.dfy`, `TopLevelGraph.dfy`, `StateGraphs.dfy` | whole runs of the top-level graph: phase word, termination, running best |
| `ScoreEvaluation.dfy`, `ExperimentPaths.dfy`, `Ensemble.dfy` | the score evaluator, the experiment index and the paths read back from it |
| `PhaseWiring.dfy` | a phase's node sequence and parallel block turned into edges |
| `CriticLoop.dfy`, `FoldFreeze.dfy` | critic retry loops, the write-once folds among scripts that may write them too |
| `Coder.dfy`, `Implementation.dfy`, `RunScores.dfy` | generate-run-check attempts, phase 5 (coder under its critic), and whole runs made of such phases |
| `WhereFilter.dfy` | the metadata-filter compiler in front of the vector store |
| `RunRegistry.dfy`, `EventQueue.dfy` | API run concurrency and the bounded event stream |
| `JsonlAccounting.dfy`, `Timeline.dfy` | token accounting and start/end correlation over event traces |
| `Clusters.dfy`, `DeliveryRender.dfy`, `JsonExtraction.dfy` | consolidation of documents, fenced rendering under a budget, JSON in LLM text |
| `Phrases.dfy`, `CamelCase.dfy` | phrase matching over collapsed spellings and split class names |
| `JsonValues.dfy`, `ExperimentDesign.dfy`, `FeatureSpec.dfy`, `ExperimentPlan.dfy` | the validators that rebuild LLM-written designs, feature specs and plans |
| `FamilyTables.dfy`, `SpecialistTables.dfy`, `EnsembleDesigns.dfy` | the specialists' model-family tables, why they read back their own names, and the ensemble's ninth key |
| `Common.dfy`, `LabStates.dfy`, `Text.dfy`, `Rankings.dfy` | shared datatypes, the state record, string functions, the sorted-list test |

Assumptions that hold throughout: `max_iterations > 0` (src/api/models.py:26); no node raises during a
whole run and every human checkpoint is resumed; a script has finished writing when `execute` returns;
there are no symbolic links.

Finite doubles are ranks: integers from `-MAX_RANK` to `MAX_RANK`, ordered and negated as the doubles
are, with `float("-inf")` apart. Boundedness is what termination rests on: over unbounded scores the
improvement loop need not stop.

Where documentation and code differ, the model follows the code:

- `src/state.py:13-18` describes `score_direction` as the recorded polarity of a score. No node writes
  it. The leaderboard comparison reads the polarity of the latest report instead, so it can negate a
  best score that was set under the other polarity: `Pipeline.CvCanBeWrong` is a run that compares -5
  where the best experiment scored 5, and `Pipeline.CvIsBestRawScore` says exactly when the figure is
  right.
- `analysis_critic._extract_verdict_object` says that it never raises. It catches only
  `JSONDecodeError`, so an oversized integer literal or too deep a nesting escapes, and with it the
  whole review: `JsonExtraction.DepthEscapes` gives such replies for every parser with a nesting limit, `JsonExtraction.PlainResponseRaisesIff`
  and `JsonExtraction.WrappedResponseRaisesIff` say exactly which do, and
  `CriticLoop.ReplyEndsReviewIff` what becomes of the review.
- `validation_strategist` promises frozen, checked folds. Its guard is that the file exists, and every
  generated script runs in the workspace: `FoldFreeze.GarbageFreezes` is a data analyst's script whose
  text is frozen unchecked, `FoldFreeze.RetriedAnalystReplacesFolds` a critic's retry that overwrites
  frozen folds. `FoldFreeze.FrozenFoldsAreCheckedIff` and `FoldFreeze.ReviewKeepsFoldsIff` say exactly
  when the promise holds.
- `coder` says that any failure is answered with another attempt, and an exhausted budget with its
  ValueError (src/nodes/llm/coder.py:12-15). Its gate guards `read_json` against OSError and ValueError
  only, and `math.isfinite`, the start of the process and the path check against nothing:
  `Coder.DeepResultsEscape` and `Coder.HugeScoreEscapes` are scripts whose first attempt ends the call in
  another exception, and `Coder.CallRaisesIff` says exactly when that happens. The same integer score
  makes `score_evaluator` raise before it writes the report it promises to write unconditionally
  (src/nodes/compute/score_evaluator.py:70-71); `ScoreEvaluation.Workspace.Run` has that case.
- `code_critic` re-invokes coder without recording another experiment, so the entry keeps the first
  call's score while results.json is the last call's. `RunScores.RecordedCanDiffer` is a run in which the
  two differ; `RunScores.RecordedAgainstRead` says exactly when they agree, and
  `Implementation.ScoresAgreeIff` that only a review without a retry guarantees it.
- `translate_where` drops operators beside `$in` on a list-valued field and drops `None` clauses of an
  `$or`. `WhereFilter.OtherOperatorsAreDropped` and `WhereFilter.NoneInOrIsDropped` are concrete
  filters that change meaning; `WhereFilter.InKeepsMeaningIff` and `WhereFilter.OrKeepsMeaningIff` say
  exactly when each of the two rewrites keeps it.

## Model

| member | source | states |
|---|---|---|
| `Pipeline.RunTerminates` | src/graph/supervisor.py:28-35 | every run from the initial state reaches the end of the graph, whatever the oracles answer, within a number of supersteps known before it starts |
| `Pipeline.FinishedRun` | src/graph/builder.py:28-91 | a finished run executed exactly p1 p2 p3 (p4 p5 p6)^k p7 with k > 0; evaluations = last improving one + max_iterations; the best score is the maximum, credited to the first experiment that reached it; experiment i, report i and evaluation i belong together |
| `Pipeline.BestIsGreatest` | src/nodes/compute/score_evaluator.py:223-255 | at any point of any run the best score is missing, with an empty path, iff no evaluation was scored; otherwise no evaluation scored higher once the sign is turned for minimized metrics, and the path is that of the first experiment that scored as high |
| `Pipeline.StepKeepsInv` | src/graph/supervisor.py:18-35 | no oracle makes a superstep fail or leave the invariant tying phase word, experiment index, reports, history, best score and counter together |
| `Pipeline.RunKeepsInv` | src/graph/builder.py:62-91 | the invariant holds after any number of supersteps of any run |
| `Pipeline.BaselineRunsOnce` | src/graph/supervisor.py:28-30 | the baseline phase occurs exactly once in the phase word, however many loops follow |
| `Pipeline.LoopLowersMeasure` | src/nodes/compute/score_evaluator.py:223-255 | each evaluation either consumes a score above the best and restores patience, or leaves the best alone and spends one unit of patience |
| `Pipeline.StepLowersStepsLeft` | src/graph/supervisor.py:31-34 | every superstep of a reachable run lowers a natural-number bound on the supersteps to come |
| `Pipeline.ResolvesOwnExperiment` | src/nodes/compute/_evaluation_common.py:141-270 | in phase 6 of iteration k the readers land on experiments/exp_k, file under number k and raise no warning |
| `Pipeline.EvaluationKeepsSummary` | src/nodes/compute/score_evaluator.py:203-312 | evaluating keeps one report per evaluation, none overwritten, and the best score, best path and counter a true summary of the history |
| `Pipeline.RecordingKeepsIndex` | src/nodes/llm/coder.py:449-463 | recording an experiment keeps entry i equal to (exp_i, experiments/exp_i, i) |
| `Pipeline.CvIsBestRawScore` | src/nodes/compute/kaggle_client.py:268-302 | at delivery the CV score is missing iff nothing was ever scored, and equals the best experiment's raw score iff that experiment was scored under the final polarity (or scored zero) |
| `Pipeline.CvCanBeWrong` | src/nodes/compute/kaggle_client.py:268-302 | a concrete run of two evaluations, the second under another metric, whose CV figure is the negative of its best raw score |
| `TopLevelGraph.Build` | src/graph/builder.py:62-113 | the builder compiles exactly the documented graph and stops after exactly the phases configured so; it fails iff some setting is not a boolean |
| `TopLevelGraph.NextIsOneSuperstep` | src/graph/builder.py:28-91 | one superstep of the compiled graph activates exactly the one phase the model says comes next |
| `TopLevelGraph.BranchesIff` | src/graph/supervisor.py:18-35 | after research the baseline is built iff no iteration is finished; after an evaluation the loop goes on iff patience is left, for every configured patience; for any other phase there is no answer |
| `TopLevelGraph.RoutesAreTheAnswers` | src/graph/builder.py:44-56 | the path maps hold exactly the answers the supervisor can give |
| `TopLevelGraph.RoutingNeverFails` | src/graph/builder.py:44-56 | with the phase stamped by the wrapper, the supervisor is never asked about a phase it does not route nor answers off the path map |
| `ScoreEvaluation.Workspace.Run` | src/nodes/compute/score_evaluator.py:203-312 | the node's delta and the fields of its report that others read back are those of the specification, filed at the resolved number, all other reports unchanged; an integer score past every double raises and leaves every report as it was |
| `ScoreEvaluation.EvaluateExtendsHistory` | src/nodes/compute/score_evaluator.py:223-255 | if best score, path and counter summarize a history, the delta makes them summarize the history with one evaluation more, scorable or not |
| `ScoreEvaluation.DeltaFollowsReport` | src/nodes/compute/score_evaluator.py:223-255 | the delta improves on the state exactly when the report's normalized score beats the best before it |
| `ScoreEvaluation.ReportTellsDelta` | src/nodes/compute/score_evaluator.py:223-312 | the report tells what the delta does to the state: the best before and after it, whether that is news, the score and the counter |
| `ScoreEvaluation.SeparatorKeepsDirection` | src/nodes/compute/score_evaluator.py:135-148 | inserting a separator anywhere in a metric's name never flips its polarity |
| `ScoreEvaluation.CaseKeepsDirection` | src/nodes/compute/score_evaluator.py:135-148 | nor does writing a letter large or small |
| `ScoreEvaluation.MinimizedIff` | src/nodes/compute/score_evaluator.py:93-148 | spelled in small letters and digits a metric is minimized iff it is one of thirteen names, written out; no metric means maximized |
| `ScoreEvaluation.FiledUnder` | src/nodes/compute/_evaluation_common.py:223-270 | a report on exp_k is filed under k, one on a directory without a number under the last entry or else the current iteration; a warning is raised iff the last entry names no usable directory and another number |
| `ScoreEvaluation.CandidateExperimentDirs` | src/nodes/compute/_evaluation_common.py:141-159 | the candidates are the recorded directory and the well-known one, in that order, each usable one once |
| `ScoreEvaluation.ReadExperimentResults` | src/nodes/compute/_evaluation_common.py:162-176 | the first candidate with readable results wins; failing all, the first candidate with none |
| `ScoreEvaluation.FirstReadableIff` | src/nodes/compute/_evaluation_common.py:162-176 | of several directories the first with readable results is read, and none only if none has any |
| `ScoreEvaluation.SoleCandidate` | src/nodes/compute/_evaluation_common.py:141-176 | when the recorded pointer is the well-known directory only that one is read |
| `ScoreEvaluation.ReportPathInjective` | src/nodes/compute/score_evaluator.py:308-310 | reports with different numbers have different paths |
| `ExperimentPaths.CoderDirIsExpDir` | src/nodes/llm/coder.py:376-463 | the directory coder records is the well-known one of its iteration |
| `ExperimentPaths.RecordedExpDir` | src/nodes/compute/_evaluation_common.py:94-129 | a recorded directory is resolved back to itself under any workspace root |
| `ExperimentPaths.RecordedDirIff` | src/nodes/compute/_evaluation_common.py:57-129 | any recorded value is resolved to a directory iff it lies in the workspace, relative or by its full path, without `..`: itself, or for a file the one it is in |
| `ExperimentPaths.IterationRoundTrip` | src/nodes/compute/_evaluation_common.py:213-220 | the number printed into a directory name is the number the regular expression reads back, below any prefix |
| `ExperimentPaths.IterationIff` | src/nodes/compute/_evaluation_common.py:213-220 | a number is read from a name iff the name ends in exp_ and digits, one final line break aside, and it is the number those digits write |
| `ExperimentPaths.PartsOfRender` | src/nodes/compute/_evaluation_common.py:57-70 | rendering clean path parts and parsing them again loses nothing |
| `ExperimentPaths.EnsembleReadsWhatCoderChecked` | src/nodes/llm/ensemble_specialist.py:220-251 | where coder accepted a run, the ensemble names the very out-of-fold file coder saw, inside the experiment's own directory |
| `ExperimentPaths.CoderOofIff` | src/nodes/llm/coder.py:182-236 | the out-of-fold file coder accepts, for every value of oof_path: inside the experiment directory, no `..`, named relative to the workspace or by its full path, the default file for a blank or missing name |
| `ExperimentPaths.NamedOofIsRead` | src/nodes/llm/ensemble_specialist.py:220-251 | the file the ensemble names for a path in the workspace, and when it falls back to the default one |
| `ExperimentPaths.OofPathsDistinct` | src/nodes/llm/coder.py:182-236 | two experiments whose runs were accepted never share an out-of-fold file, whatever paths their scripts chose |
| `Ensemble.ValidateBaseExperiments` | src/nodes/llm/_experiment_design.py:612-682 | accepts exactly the non-empty lists of filled entries with pairwise distinct oof paths, unchanged; each error names its ground |
| `Ensemble.RunCanBeEnsembled` | src/nodes/llm/ensemble_specialist.py:171-276 | at any point of any run whose recorded oof files still pass coder's check, the ensemble over all experiments passes validation |
| `PhaseWiring.BuildPhaseSubgraph` | src/graph/phases/generic.py:20-80 | the edges built, and each error iff: duplicate node, nothing to connect, or a parallel set that is not contiguous |
| `PhaseWiring.AddBlock` | src/graph/phases/generic.py:57-75 | the parallel branch rejects exactly a missing or gapped block and otherwise adds its fan-out and fan-in |
| `PhaseWiring.SolidIffContiguous` | src/graph/phases/generic.py:57-70 | the builder's first-to-last check is contiguity |
| `PhaseWiring.WirableIff` | src/graph/phases/generic.py:43-75 | what is wired of the sequences without repeats: those that are not empty and hold the parallel nodes, if any, with no other node between them |
| `PhaseWiring.ExecutionIsSchedule` | src/graph/phases/generic.py:43-80 | superstep execution of the edges from START is the sequence with the parallel block as one step, then END, then nothing |
| `PhaseWiring.EachNodeRunsOnce` | src/graph/phases/generic.py:43-80 | every node is active in exactly one superstep |
| `CriticLoop.Review` | src/nodes/llm/analysis_critic.py:245-374 | for a budget of at least zero the review ends inside the loop in the first cycle that does not retry (a reply that cannot be read, a raising target, a pass), never at the cap; for a negative one it is a single forced pass without an LLM call; every prompt is the initial messages plus all gathered so far, over the state with the targets' fields, and none of those fields is returned |
| `CriticLoop.Cycles` | src/nodes/llm/code_critic.py:405-513 | the bounded loop either concludes in its last cycle or retried in all of them |
| `CriticLoop.Call` | src/nodes/llm/code_critic.py:405-537 | the same for verdicts parsed from arbitrary replies, those whose parse raises among them |
| `CriticLoop.ReplyIsJudged` | src/nodes/llm/analysis_critic.py:143-182 | for every reply: the verdict is pass iff an object was found whose "verdict" is the string "pass"; the target is the one named if the node knows it, else its first; the feedback is the reply's own iff it is non-blank text, and reports a parse failure iff no object was found |
| `CriticLoop.PassEndsReviewIff` | src/nodes/llm/code_critic.py:342-513 | a review ends as judged in cycle n iff reply n is the first to say pass and every cycle before it retried |
| `CriticLoop.RetriesIff` | src/nodes/llm/analysis_critic.py:283-374 | a cycle retries iff its reply can be read and does not say pass, its target has budget left, and re-invoking it returns |
| `CriticLoop.ReviewEnds` | src/nodes/llm/analysis_critic.py:263-385 | what the last cycle makes of the review: an error for an unreadable reply or a raising target, otherwise the attempts so far closed by a pass whose ground is the judgement, the spent budget or the frozen folds, in this order |
| `CriticLoop.AnalysisReplyIs` | src/nodes/llm/analysis_critic.py:91-140 | the object judged is that of the first candidate text that holds one, when none before it overflows the parser |
| `CriticLoop.CodeReplyIs` | src/nodes/llm/code_critic.py:294-339 | the object judged is that of the whole response, or else of the text before the first fence marker that yields one; nothing is found iff none does |
| `CriticLoop.TrimKeepsNewest` | src/nodes/llm/base.py:28-36 | the trimmed history is the newest messages, as many as the window holds |
| `CriticLoop.ReplyEndsReviewIff` | src/nodes/llm/analysis_critic.py:91-140 | an analysis_critic reply ends the call in an exception, with no attempt recorded for it, iff one of its candidate texts overflows the parser and none before it is an object |
| `CriticLoop.CodeCriticReadsEverything` | src/nodes/llm/code_critic.py:294-339 | code_critic's extraction never raises, whatever the reply |
| `CriticLoop.RetriesFitBudget` | src/nodes/llm/analysis_critic.py:245-262 | the pigeonhole argument: fewer cycles can retry than the global cap allows |
| `CriticLoop.NoTargetExceedsBudget` | src/nodes/llm/code_critic.py:440-470 | no target is retried more often than max_retries |
| `CriticLoop.ReviewShape` | src/nodes/llm/analysis_critic.py:263-385 | the attempts are iterates closed by exactly one pass, within budget per target, and a budget is called exhausted only when fully spent |
| `CriticLoop.FrozenTargetIsNeverRetried` | src/nodes/llm/analysis_critic.py:320-350 | a target that always reports frozen folds is never iterated on |
| `CriticLoop.TargetOf` | src/nodes/llm/analysis_critic.py:143-182 | a normalized verdict always names a target the node knows |
| `CriticLoop.FeedbackOf` | src/nodes/llm/code_critic.py:342-388 | feedback taken from the reply is never blank |
| `FoldFreeze.ValidateIndexList` | src/nodes/llm/validation_strategist.py:80-92 | accepts exactly non-empty lists of non-negative plain integers |
| `FoldFreeze.ValidateFoldConfigShape` | src/nodes/llm/validation_strategist.py:95-162 | accepts exactly the announced number of folds, at least one, each with non-empty, disjoint training and validation rows |
| `FoldFreeze.SoundFoldIff` | src/nodes/llm/validation_strategist.py:80-162 | row by row: rows are non-negative integers, and none is both trained on and validated on |
| `FoldFreeze.FoldFile.WriteOutput` | src/nodes/llm/validation_strategist.py:174-214 | over an existing file nothing runs and nothing changes; otherwise a sound printed payload is written over whatever the script left, and any other outcome leaves the script's own effect on the file |
| `FoldFreeze.FoldsNeverChange` | src/nodes/llm/validation_strategist.py:177-182 | once the fold file exists no sequence of strategist calls changes it, whatever their scripts would do |
| `FoldFreeze.FrozenFoldsAreCheckedIff` | src/nodes/llm/validation_strategist.py:174-214 | over any sequence of node calls, what stands in the file has always passed the shape check iff no script that ran left the file itself, except where the strategist wrote over it |
| `FoldFreeze.StrategistFoldsAreSound` | src/nodes/llm/validation_strategist.py:95-214 | folds the strategist wrote are sound wherever they still stand |
| `FoldFreeze.PhaseOneFreezesIff` | src/nodes/llm/data_analyst.py:116-135 | in phase 1 the strategist freezes its folds iff the data analyst's script left no file and its own printed a sound payload |
| `FoldFreeze.GarbageFreezes` | src/nodes/llm/data_analyst.py:116-135 | a concrete analyst's script whose text is frozen unchecked, the strategist only reporting it frozen |
| `FoldFreeze.FrozenStrategistIsNotRetried` | src/nodes/llm/analysis_critic.py:320-350 | while the file is there no cycle iterates on the strategist, and the first to insist on it ends the review in a forced pass |
| `FoldFreeze.ReviewKeepsFoldsIff` | src/nodes/llm/analysis_critic.py:312-350 | a review keeps the folds from cycle to cycle iff no script of a retried data analyst changes or deletes them |
| `FoldFreeze.RetriedAnalystReplacesFolds` | config/phases/phase1_understanding.yaml:16-19 | a concrete review with one retry of the data analyst that overwrites frozen folds |
| `Coder.OneFenceIsTheScript` | src/nodes/llm/coder.py:105-129 | a reply with one labelled fence yields its code, stripped, as the script, or the empty-script error, whatever prose surrounds it |
| `Coder.TwoFencesAreRefused` | src/nodes/llm/coder.py:105-129 | a reply with a second fenced block after the first is refused |
| `Coder.Workspace.ClearContractArtifacts` | src/nodes/llm/coder.py:239-278 | exactly the three contract files of the iteration are deleted |
| `Coder.Workspace.TryScript` | src/nodes/llm/coder.py:414-429 | one attempt writes the script, clears the artifacts, runs it and gates on what it left; an unreadable reply touches no file; what the gate does not catch leaves the attempt as an exception |
| `Coder.Workspace.Attempts` | src/nodes/llm/coder.py:414-438 | attempts go on until one is accepted, one lets an exception through, or three have failed, each shown every failed reply and reason before it |
| `Coder.ConversationIs` | src/nodes/llm/coder.py:414-438 | after n failed attempts the conversation is the n replies, each with the reason it failed for, oldest first |
| `Coder.Workspace.Call` | src/nodes/llm/coder.py:376-463 | the files and the delta or error are those of the specification, for arbitrary replies and scripts; there is one prompt per attempt, showing every failure before it |
| `Coder.AttemptAcceptedIff` | src/nodes/llm/coder.py:281-324 | an attempt is accepted iff its reply holds a script without NUL that ends in time with exit code 0, writes a results object with a finite score and one of the allowed metrics, writes the submission, and leaves the out-of-fold file the results name in place |
| `Coder.CallSucceedsIff` | src/nodes/llm/coder.py:376-463 | a call returns a delta iff one of its three attempts succeeds so and none before it raises |
| `Coder.EarliestCauseIsReported` | src/nodes/llm/coder.py:281-324 | of several faults the gate names the earliest: timeout, exit code, results, submission, out-of-fold file |
| `Coder.CallRaisesIff` | src/nodes/llm/coder.py:281-463 | a call raises iff all three attempts fail, or one of them, reached after retried failures only, runs code holding a NUL, or exits cleanly leaving a results.json too deep for the parser, an integer score past every double, or an otherwise valid run whose out-of-fold path holds a NUL; else it stops at the first accepted attempt and returns every reply and the old experiments with exactly one entry, scored from the accepted results |
| `Coder.AttemptEscapesIff` | src/nodes/llm/coder.py:281-324 | whether an attempt lets an exception through depends on its reply and script alone, not on the files it finds |
| `Coder.DeepResultsEscape` | src/nodes/llm/coder.py:296-299 | a concrete script whose too deep results.json ends the call on its first attempt |
| `Coder.HugeScoreEscapes` | src/nodes/llm/coder.py:303-307 | a concrete script whose integer score past every double ends the call on its first attempt |
| `Coder.SuccessIsOneAttemptsWork` | src/nodes/llm/coder.py:239-324 | on success results.json, submission.csv and the default out-of-fold file (when no other is named) were all written by the last attempt, and the score on file is the one its script wrote |
| `Coder.ContractFilesAreFresh` | src/nodes/llm/coder.py:239-278 | a contract file present after an attempt that ran was written by that attempt |
| `Coder.GateFacts` | src/nodes/llm/coder.py:281-324 | passing the gate means readable object results with a finite score, a submission, and an out-of-fold file in place |
| `Coder.DefaultOofPath` | src/nodes/llm/coder.py:182-236 | without a usable oof_path the file checked is the experiment's default one |
| `Coder.OnlyScriptsReachElsewhere` | src/nodes/llm/coder.py:414-429 | any file other than the script and the three contract files changes only if the generated script itself writes or deletes it |
| `Coder.ScriptIsSaved` | src/nodes/llm/coder.py:414-429 | an attempt with a script leaves it as train.py, unless the script removes it |
| `Implementation.OneExperimentPerPhase` | src/nodes/llm/code_critic.py:440-513 | however often coder is retried, the graph's experiments gain exactly the entry of its first call and no other field changes, while the review worked on one entry per call and the score on file is the one the last call's script wrote |
| `Implementation.RecordedScoreIsReadIff` | src/nodes/llm/coder.py:449-463 | the evaluator reads the score the last call's accepted script wrote; it is the recorded one iff the first call's accepted script wrote the same |
| `Implementation.RetryMovesScore` | src/nodes/llm/code_critic.py:440-513 | for every number of retries within budget a concrete review after which the score on file is not the recorded one |
| `Implementation.ScoresAgreeIff` | src/nodes/llm/code_critic.py:440-513 | recorded score and score on file agree for every choice of replies and scripts iff nothing is retried |
| `RunScores.RecordedAgainstRead` | src/nodes/compute/score_evaluator.py:203-312 | at any point of any run whose phases 5 are coder calls under a critic: experiment i records the score its first call's accepted script wrote, report i holds the one its last call's wrote, and they agree iff those scripts wrote the same |
| `RunScores.RunHoldsWhatItDrew` | src/nodes/compute/score_evaluator.py:203-312 | at any point of any run entry i is what the i-th phase 5 drew, under its own name, number and directory, and report i the score the i-th phase 6 found there, under the polarity of the metric it found |
| `RunScores.RecordedCanDiffer` | src/nodes/llm/coder.py:449-463 | a concrete run whose first experiment says 1 where its report says 2 |
| `WhereFilter.TranslateWhere` | src/memory/store.py:93-137 | the recursive loop computes the translation function, first failure first |
| `WhereFilter.TranslatableIff` | src/memory/store.py:93-137 | translation succeeds iff every clause reached is a dict or None and every operator dict on a list field that holds $in maps it to a non-empty list |
| `WhereFilter.FirstErrorIsRaised` | src/memory/store.py:93-137 | otherwise the error raised is the first in reading order |
| `WhereFilter.ConditionIsTranslated` | src/memory/store.py:113-131 | what each single condition becomes: an $or of one $contains per value for $in on one of the three list fields, itself otherwise |
| `WhereFilter.QueryMeaning` | src/tools/rag.py:130-150 | for faithful filters the filter sent to Chroma accepts exactly the documents the caller's accepts |
| `WhereFilter.TranslatePreserves` | src/memory/store.py:93-137 | translation keeps which documents a faithful filter accepts |
| `WhereFilter.LegalizePreserves` | src/tools/rag.py:29-50 | collapsing keeps which documents any filter accepts |
| `WhereFilter.QueryIsLegal` | src/tools/rag.py:29-50 | the result has single-key dicts, at least two clauses per connective and no list-field $in iff the filter has no empty dict and a real clause under each connective |
| `WhereFilter.InKeepsMeaningIff` | src/memory/store.py:119-127 | an operator dict with $in on a list field keeps its meaning, over all documents and all readings of the operators left to Chroma, iff every other operator is the $contains of the only value asked for |
| `WhereFilter.OrKeepsMeaningIff` | src/memory/store.py:110-117 | an $or over faithful clauses keeps its meaning, over all documents and all readings of the operators left to Chroma, iff it holds no None or another clause accepts everything |
| `WhereFilter.OtherOperatorsAreDropped` | src/memory/store.py:119-127 | a concrete filter, $in beside $contains of another value, whose translation accepts a document it excludes |
| `WhereFilter.NoneInOrIsDropped` | src/memory/store.py:110-117 | a concrete filter whose translation excludes a document it accepts |
| `WhereFilter.BlankIsLeast` | src/tools/rag.py:130-150 | filters are monotone: what the abstract document that answers every condition with no passes, every document passes |
| `WhereFilter.TranslateIsIdempotent` | src/memory/store.py:93-137 | translating twice is translating once |
| `WhereFilter.LegalizeIsIdempotent` | src/tools/rag.py:29-50 | collapsing twice is collapsing once |
| `RunRegistry.AppState.FindActiveRun` | src/api/routers/runs.py:134-143 | finds a registered run whose task is not done iff there is one |
| `RunRegistry.AppState.CreateRun` | src/api/routers/runs.py:188-213 | creates a task iff no run is active and the graph builds: then one live task of this run is appended and registered under it, all earlier tasks and other registrations unchanged; else neither changes |
| `RunRegistry.AppState.ContinueResume` | src/api/routers/runs.py:263-331 | after its awaits a resume starts a task, live and registered under its run, iff the build succeeded, none is active and the record it read said interrupted; else tasks and registrations are unchanged |
| `RunRegistry.StepKeepsInv` | src/api/routers/runs.py:188-331 | every atomic section keeps: at most one task live, and every live task registered under its run |
| `RunRegistry.OneLiveTask` | src/api/routers/runs.py:134-331 | in every interleaving at most one task is live, and the in-memory check reports an active run iff one is, with the status record arbitrary |
| `RunRegistry.AcceptedStarts` | src/api/routers/runs.py:188-331 | in every reachable state an accepted request appends and registers exactly one live task of its own run; every other section leaves the registry alone and at most ends one task |
| `RunRegistry.AcceptedRunLives` | src/api/routers/runs.py:146-331 | after an accepted request its run has a live task, whatever comes next, until that task ends |
| `RunRegistry.InterruptedRunResumes` | src/api/routers/runs.py:263-331 | an undisturbed resume that reads interrupted starts its run iff nothing is live and the graph builds |
| `RunRegistry.ResumedWasInterrupted` | src/api/routers/runs.py:263-331 | no resume starts a task but one that arrived for that run and read it as interrupted |
| `RunRegistry.RegistrationDisplacesOnlyDoneTasks` | src/api/routers/runs.py:188-331 | no registration replaces a live task |
| `EventQueue.BoundedQueue.PutEventDroppingOldest` | src/api/event_emitter.py:44-58 | the put succeeds at the cost of the oldest item when full, and the new item is always the last |
| `EventQueue.StepKeepsInv` | src/api/routers/runs.py:146-184 | every step of worker, loop or consumer keeps the queue bounded, order kept, and the end marker put once, last, and never lost |
| `EventQueue.AnyInterleaving` | src/api/event_emitter.py:36-58 | after any interleaving at most 1000 items are queued, delivered then queued items are an in-order subsequence of those put, and STREAM_END was put iff the run is over, once, last, and is still to come or delivered |
| `EventQueue.EverythingEmittedIsPut` | src/api/event_emitter.py:36-58 | once a run is over everything its workers emitted has been put, in order, and then STREAM_END |
| `EventQueue.OnlyOverflowsLose` | src/api/event_emitter.py:44-58 | items put = delivered + queued + times an item came while all 1000 places were taken: each overflow costs exactly one item and nothing else costs any |
| `EventQueue.PhaseCountsReturns` | src/api/routers/runs.py:146-184 | as long as nothing raises, a run is over only once both its threads have run and returned |
| `EventQueue.RaisingEndsRun` | src/api/routers/runs.py:146-184 | a step that raises ends the run at once, and STREAM_END is put |
| `EventQueue.StepsAreProgress` | src/api/routers/runs.py:146-184 | until the run is over a thread can return or the loop has a callback; either lowers a natural bound, which only an emitted event raises, by one |
| `EventQueue.EveryRunCanEnd` | src/api/routers/runs.py:146-184 | after any interleaving, threads that return and a loop that goes on end the run within that bound |
| `EventQueue.ConsumerDrains` | src/api/routers/events.py:33-49 | after the run a reading consumer receives everything queued, in order, and stops at STREAM_END |
| `JsonlAccounting.JsonlCallbackHandler.OnChainEnd` | src/observability/jsonl_callback.py:223-257 | the whole new handler state, and the end record written from the run's bucket |
| `JsonlAccounting.JsonlCallbackHandler.OnChainError` | src/observability/jsonl_callback.py:104-118 | a failed chain run loses its bucket, start and mark, and nothing else changes |
| `JsonlAccounting.JsonlCallbackHandler.OnLlmEnd` | src/observability/jsonl_callback.py:270-292 | an ended call's counts go to its parent's bucket and to nothing else |
| `JsonlAccounting.AddUsageSummarizes` | src/observability/jsonl_callback.py:287-292 | adding a call keeps a bucket a summary: a count is unknown iff every contributing count is, else the sum of the known ones; the model is the first one named |
| `JsonlAccounting.BucketsAgreeAlways` | src/observability/jsonl_callback.py:260-292 | after any trace a bucket is held iff contributions are pending for its run, and summarizes them |
| `JsonlAccounting.EndRecordIsExact` | src/observability/jsonl_callback.py:223-257 | an end record names the node its run started as and reports exactly what its run's calls contributed since the last one |
| `JsonlAccounting.OtherRecords` | src/observability/jsonl_callback.py:178-257 | of the other hooks only a node's start writes a record, of the node as given |
| `JsonlAccounting.TokensAreConserved` | src/observability/jsonl_callback.py:104-292 | tokens of ended, parented calls = tokens in end records + tokens held + tokens discarded with failed chains |
| `Timeline.OpenEntries.ApplyEvent` | frontend/src/components/PipelineView.tsx:46-94 | the returned timeline and the updated queues are those of the step function |
| `Timeline.TimelineIsExpected` | frontend/src/components/PipelineView.tsx:46-94 | after any trace: one entry per start and per unmatched end in event order, the r-th start of a key closed by its r-th matching end, and each queue the open starts, oldest first |
| `Timeline.RunningEntriesAreQueued` | frontend/src/components/PipelineView.tsx:46-94 | an id is queued under its key iff its entry is running |
| `Timeline.KeyIdentifiesNode` | frontend/src/components/PipelineView.tsx:36-44 | two events share a key only if phase, iteration and node agree, given colon-free phases and iterations |
| `Timeline.NodeSharesKey` | frontend/src/components/PipelineView.tsx:36-44 | a start and an end of one node in one phase and iteration share a key |
| `Clusters.ValidateIndices` | src/nodes/llm/memory_manager.py:69-90 | passes iff every cluster's indices are a non-empty list of distinct plain integers |
| `Clusters.SortedTestIsPartition` | src/nodes/llm/memory_manager.py:93-104 | the sort-and-compare test is exactly: every candidate index occurs once over all clusters |
| `Clusters.BuildConsolidated` | src/nodes/llm/memory_manager.py:137-189 | accepts exactly well-formed partitions and merges each cluster in place; no candidates, no documents; unusable indices are reported before a grouping that is no partition, and that before unusable fields |
| `Clusters.AcceptedIff` | src/nodes/llm/memory_manager.py:69-134 | a grouping of n candidates is accepted iff every cluster has usable fields and a non-empty list of integers, and those lists name every number from 1 to n once and no other |
| `Clusters.EachCandidateInOneCluster` | src/nodes/llm/memory_manager.py:93-104 | in an accepted grouping every candidate belongs to exactly one cluster |
| `Clusters.TextsAreConserved` | src/nodes/llm/memory_manager.py:137-189 | the texts and sources of the returned documents are joined from lists that together are the candidates, none lost, none doubled, each list headed by the document that names the result; the metadata is the cluster's own |
| `Clusters.SourcesByAppearance` | src/nodes/llm/memory_manager.py:160-170 | every member's source is listed once, in order of first appearance |
| `Clusters.MergedId` | src/nodes/llm/memory_manager.py:137-189 | a merged document carries the id of its lowest-numbered member |
| `Clusters.MergedIdsDistinct` | src/nodes/llm/memory_manager.py:137-189 | distinct candidate ids give distinct consolidated ids, each some candidate's |
| `Clusters.RagStore.Index` | src/tools/rag.py:79-103 | a batch is refused, whole, iff two of its documents share an id; else it is upserted |
| `Clusters.BatchIsStored` | src/tools/rag.py:79-103 | after a batch of distinct ids each of its documents stands under its id, and nothing else changed |
| `Clusters.ConsolidationUpsertsInPlace` | src/nodes/llm/memory_manager.py:137-189 | documents consolidated from distinctly named, stored candidates have distinct ids, so the duplicate check cannot refuse them, and writing them adds no entry |
| `Clusters.Consolidate` | src/nodes/llm/memory_manager.py:291-298 | what was consolidated is always indexed; a rejected grouping leaves the store unchanged |
| `DeliveryRender.FenceFor` | src/nodes/llm/_delivery_common.py:190-210 | the counting loop finds the longest run of backticks |
| `DeliveryRender.FenceIsTight` | src/nodes/llm/code_critic.py:246-266 | the fence does not occur in the content, has at least three backticks, and none shorter would do |
| `DeliveryRender.NoPieceCloses` | src/nodes/llm/code_critic.py:246-266 | no piece of a text closes the fence chosen for it, wherever a reader takes lines to begin and end |
| `DeliveryRender.ReadBoundedTexts` | src/nodes/llm/_delivery_common.py:228-262 | sections and read map are what the shared budget leaves for each candidate in turn |
| `DeliveryRender.BudgetIsSpentExactly` | src/nodes/llm/_delivery_common.py:228-262 | injected characters total the smaller of the budget and what is readable |
| `DeliveryRender.ReadIff` | src/nodes/llm/_delivery_common.py:228-262 | a candidate is read iff it is there and the files before it leave some of the budget; otherwise its placeholder says which of the two failed |
| `DeliveryRender.OnlyTheLastReadIsCut` | src/nodes/llm/_delivery_common.py:213-262 | a read section carries its characters exactly; only where the budget runs out is one cut, with a marker naming the length and the file, and all later ones are placeholders |
| `DeliveryRender.ReadMapRecordsLast` | src/nodes/llm/_delivery_common.py:228-262 | a candidate named once is recorded as read iff it was |
| `DeliveryRender.RenderCodeSections` | src/nodes/llm/_delivery_common.py:265-279 | the rendered document is the headed, fenced sections in order |
| `DeliveryRender.RenderingRoundTrip` | src/nodes/llm/_delivery_common.py:265-279 | a reader of fenced code blocks (section 4.5 of the CommonMark Spec) recovers every section's text, whatever backticks or headings it holds |
| `JsonExtraction.StripUndoesWrap` | src/nodes/llm/_experiment_design.py:171-192 | fence stripping inverts fence wrapping for every body up to outer white space |
| `JsonExtraction.SalvageOnlyWidens` | src/nodes/llm/_experiment_design.py:206-250 | a response the strict path parses is answered from it; anything else accepted was parsed from one contiguous brace-delimited piece |
| `JsonExtraction.ExtractedIff` | src/nodes/llm/_experiment_design.py:206-250 | an object is extracted iff the strict path parses to it, or fails as a ValueError and the text between the outermost braces, less than the whole, parses to it |
| `JsonExtraction.ProseIsSalvaged` | src/nodes/llm/_experiment_design.py:206-250 | brace-free prose around an object never costs the object |
| `JsonExtraction.ExtractVerdictData` | src/nodes/llm/code_critic.py:294-339 | the fallback scan ends on every response with the scan function's answer |
| `JsonExtraction.ScanIsFirstYield` | src/nodes/llm/code_critic.py:294-339 | the scan answers with the object before the first fence marker that yields one, if some marker does |
| `JsonExtraction.TrailerIsCutOff` | src/nodes/llm/code_critic.py:294-339 | a fence-free object followed by any fenced trailer is recovered whenever the whole response yields nothing |
| `JsonExtraction.ExtractVerdictObject` | src/nodes/llm/analysis_critic.py:129-140 | the first candidate that parses as an object is returned |
| `JsonExtraction.ObjectIff` | src/nodes/llm/analysis_critic.py:129-140 | the object is that of the first candidate that holds one, when none before it overflows the parser |
| `JsonExtraction.RaisesIff` | src/nodes/llm/analysis_critic.py:129-140 | the extraction raises iff some candidate overflows the parser and none before it is an object |
| `JsonExtraction.PlainResponseRaisesIff` | src/nodes/llm/analysis_critic.py:91-140 | an unfenced response raises iff its own stripped text overflows the parser |
| `JsonExtraction.WrappedResponseRaisesIff` | src/nodes/llm/analysis_critic.py:91-140 | a response wrapped in a fence raises iff one of its two or three texts, written out, overflows before any is an object |
| `JsonExtraction.DepthEscapes` | src/nodes/llm/analysis_critic.py:129-140 | for every parser with a nesting limit, any response opening more brackets than that escapes the extraction |
| `JsonExtraction.WrappedVerdictIsFound` | src/nodes/llm/analysis_critic.py:91-140 | a verdict wrapped in one fence is found whatever fences it quotes, unless the fenced text already settles the answer |
| `Phrases.CollapseIsWords` | src/nodes/llm/feature_engineer.py:335-339 | two substitutions and a strip compute the lower-cased words, one space apart |
| `Phrases.CollapseIsIdempotent` | src/nodes/llm/feature_engineer.py:335-339 | collapsing separators twice is collapsing them once |
| `Phrases.SpellingsCollapseAlike` | src/nodes/llm/feature_engineer.py:335-339 | two spellings collapse alike iff they have the same words up to letter case |
| `Phrases.PhraseIsConsecutiveWords` | src/nodes/llm/_experiment_design.py:269-277 | over plain words a whole-phrase match is the phrase's words standing consecutively in the text |
| `ExperimentDesign.FamilyIsUnambiguous` | src/nodes/llm/_experiment_design.py:253-288 | a model family is accepted iff exactly one table entry is named by the text |
| `ExperimentDesign.ValidateChoices` | src/nodes/llm/_experiment_design.py:448-472 | accepts exactly non-empty lists of scalars no two of which compare equal, unchanged |
| `JsonValues.ScalarsAre` | src/nodes/llm/_experiment_design.py:291-317 | a scalar is null, a boolean, a string, an integer within 2^53 of zero or a finite double; a flat value is one of these or a list of them |
| `JsonValues.SharedKeyIff` | src/nodes/llm/_experiment_design.py:448-472 | two scalars share an equality key iff they compare equal: by value among numbers and booleans, else by being the same |
| `ExperimentDesign.ValidateFixedParams` | src/nodes/llm/_experiment_design.py:516-534 | accepts exactly objects of usable names with flat values, unchanged |
| `ExperimentDesign.AcceptedSpecIsSound` | src/nodes/llm/_experiment_design.py:357-495 | an accepted search-space entry has low < high within exact bounds, a step within range, and no log scale with a step or a non-positive low |
| `ExperimentDesign.SpecAcceptedIff` | src/nodes/llm/_experiment_design.py:413-513 | an entry is accepted as p iff it reads as p, field by field, and p is sound |
| `ExperimentDesign.SpaceAcceptedIff` | src/nodes/llm/_experiment_design.py:498-513 | a search space is accepted iff it is a non-empty object of usable names each of whose entries is accepted, and as the map of these |
| `ExperimentDesign.ParamNameGrows` | src/nodes/llm/_experiment_design.py:347-354 | a usable name, character by character: a letter or underscore, then up to 63 letters, underscores or digits |
| `ExperimentDesign.SpecIsFixpoint` | src/nodes/llm/_experiment_design.py:413-495 | a rebuilt entry is accepted again, unchanged, iff it is sound |
| `ExperimentDesign.AcceptedDesignIsSound` | src/nodes/llm/_experiment_design.py:320-344 | a design naming a cross-validation key at a checked place is rejected; an accepted one names none, tunes at least one sound parameter and fixes none it tunes |
| `ExperimentDesign.DesignAcceptedIff` | src/nodes/llm/_experiment_design.py:573-609 | a design is accepted iff the three checked places name no cross-validation key, every part is accepted by itself and nothing is both tuned and fixed; it holds just those parts |
| `ExperimentDesign.DesignNamesNoCv` | src/nodes/llm/_experiment_design.py:562-609 | the object written for a sound design passes the cross-validation tripwire |
| `FamilyTables.NameIsItsOwn` | src/nodes/llm/_experiment_design.py:253-288 | under a table whose names hold an own alias and no other family's, every canonical name is recognized as itself |
| `FamilyTables.AcceptedDesignIsFixpoint` | src/nodes/llm/_experiment_design.py:573-609 | under such a table the validator is a fixpoint on its own output: what it accepts it accepts again as written, unchanged |
| `SpecialistTables.SpecialistDesignIsFixpoint` | src/nodes/llm/_experiment_design.py:573-609 | the same, without condition, for the eight keys of each of the five specialists |
| `EnsembleDesigns.EnsembleDesignIsFixpoint` | src/nodes/llm/_experiment_design.py:612-714 | the ensemble's validator is a fixpoint on all nine keys of what it writes |
| `EnsembleDesigns.BaseIsSoundIff` | src/nodes/llm/_experiment_design.py:612-682 | a list of base experiments, written out, is read back unchanged iff it is non-empty, filled and never names one predictions file twice |
| `EnsembleDesigns.DesignIgnoresNinthKey` | src/nodes/llm/_experiment_design.py:700-714 | what a reply sends under base_experiments changes nothing |
| `EnsembleDesigns.RunDesignIsAccepted` | src/nodes/llm/ensemble_specialist.py:253-343 | at any point of any run whose out-of-fold files still pass coder's check, an ensemble design is accepted iff its eight keys are, and names every experiment so far |
| `SpecialistTables.ClassicalMlNamesItself` | src/nodes/llm/classical_ml_specialist.py:42-47 | the table is self-naming |
| `SpecialistTables.DeepLearningNamesItself` | src/nodes/llm/deep_learning_specialist.py:73-87 | the table is self-naming |
| `SpecialistTables.NlpNamesItself` | src/nodes/llm/nlp_specialist.py:61-86 | the table is self-naming |
| `SpecialistTables.TimeseriesNamesItself` | src/nodes/llm/timeseries_specialist.py:106-188 | the table is self-naming |
| `SpecialistTables.EnsembleNamesItself` | src/nodes/llm/ensemble_specialist.py:95-140 | the table is self-naming |
| `CamelCase.CamelIsSplit` | src/nodes/llm/feature_engineer.py:342-357 | for words of small letters and digits, the split class name is the words one space apart, with exactly the invisible boundaries missing |
| `CamelCase.CamelIsSplitIff` | src/nodes/llm/feature_engineer.py:342-357 | it is all the words iff every one-letter word but the last is followed by a word whose second character is a small letter |
| `FeatureSpec.CollapsedMatchIsKept` | src/nodes/llm/feature_engineer.py:342-406 | splitting camelCase never loses a family match the collapsed spelling had |
| `FeatureSpec.SplitMatchCounts` | src/nodes/llm/feature_engineer.py:381-406 | a keyword found only in the split class name is a match |
| `FeatureSpec.FirstMatchFinds` | src/nodes/llm/feature_engineer.py:381-406 | a family is matched iff some family has a keyword in some reading of the operation |
| `FeatureSpec.FittedIsPerFold` | src/nodes/llm/feature_engineer.py:468-492 | an accepted entry whose operation spells out a family's keyword, in any case, with any separators or as a class name, is per_fold |
| `FeatureSpec.TargetEncoderIsRead` | src/nodes/llm/feature_engineer.py:342-357 | TargetEncoder is read as target encoder |
| `FeatureSpec.KnnImputerIsRead` | src/nodes/llm/feature_engineer.py:342-357 | KNNImputer, an acronym before a word, is read as knn imputer |
| `FeatureSpec.ValidateParams` | src/nodes/llm/feature_engineer.py:442-465 | accepts exactly objects of non-blank names with flat values, unchanged |
| `FeatureSpec.ValidateFeatures` | src/nodes/llm/feature_engineer.py:520-538 | accepts exactly lists of valid entries that never repeat an operation on the same columns |
| `FeatureSpec.EntryAcceptedIff` | src/nodes/llm/feature_engineer.py:409-517 | an entry is accepted iff it is an object with distinct non-blank columns, filled texts, flat parameters and a known scope, per_fold where a family matches; one no family matches may be global |
| `FeatureSpec.AcceptedFeaturesAreSound` | src/nodes/llm/feature_engineer.py:409-538 | accepted entries have distinct non-blank columns, padless texts and per_fold wherever a family matches, and distinct keys |
| `FeatureSpec.FeaturesAreFixpoint` | src/nodes/llm/feature_engineer.py:495-542 | what is accepted is written back and accepted again, unchanged |
| `ExperimentPlan.RankingIsPermutation` | src/nodes/llm/_evaluation_llm_common.py:344-354 | a ranking is accepted iff it has no repeat and no rank outside 1..n |
| `ExperimentPlan.ChangesStandInOrder` | src/nodes/llm/experiment_designer.py:95-110 | in an accepted plan the change ranked i + 1 stands at position i and no change is lost, added or altered |
| `ExperimentPlan.AcceptedPlanIsSound` | src/nodes/llm/experiment_designer.py:78-110 | an accepted plan holds one to six changes, each with known target and filled texts, ranked 1..n in order, and exactly the changes given |
| `ExperimentPlan.ChangeAcceptedIff` | src/nodes/llm/experiment_designer.py:68-91 | a change is accepted iff its five fields are there, of the right type, filled, and its target is one of the four |
| `ExperimentPlan.PlanAcceptedIff` | src/nodes/llm/experiment_designer.py:78-110 | a plan is accepted iff it has a rationale and one to six acceptable changes ranked by a permutation of 1..n |
| `ExperimentPlan.PlanIsFixpoint` | src/nodes/llm/experiment_designer.py:78-110 | a sound plan, written out, is accepted unchanged |
| `ExperimentPlan.ArrangingIsIdempotent` | src/nodes/llm/experiment_designer.py:95-110 | arranging an arranged plan changes nothing |

## Left out

- QueryMeaning: one way only, for filters without the two lossy shapes; whether an arbitrary filter happens to keep its meaning is a satisfiability question about the whole filter, so the exact conditions are stated rewrite by rewrite in InKeepsMeaningIff and OrKeepsMeaningIff.
- Review: a reply that cannot be read or a target that raises ends the review with an error; what the exception says is not modelled.
- Workspace.Run: of the report, the fields computed by subtraction or for display (score_delta, delta_vs_baseline, the baseline comparison and its reasons) are left out, and so is the exception a baseline score past every double raises.
- ValidateNumeric: the step is compared with the range over exact reals; the rounding of `high - low` that the 1e-9 slack absorbs is not modelled.
- Call: an out-of-fold file under a name the results choose themselves may predate the attempt, as coder documents; only the default name is vouched for. Grandchild processes that write after `execute` returns are excluded. Exceptions not modelled: a lone surrogate in the script or the path, a path component longer than the file system allows, and whatever building the prompt may raise.
- AnyInterleaving: covers a run from the moment `_run_and_track` is entered; a resume whose `graph.update_state` raises before that, and the removal of queue entries by run id across overlapping runs, are not part of this model. Neither is cancelling the tracked task while its worker thread goes on emitting.
- OneLiveTask: a task ends at any time and for any reason; cancellation is not told apart from completion. That a completed run stays completed on disk is not claimed.
- BlankIsLeast, OrKeepsMeaningIff: the blank document answers every operator with no, which no document held by Chroma need do ($ne), so the only-if half of OrKeepsMeaningIff ranges over abstract documents too.
- InKeepsMeaningIff: what operators other than $in and $contains accept is arbitrary, so the only-if half ranges over documents Chroma may be unable to hold.
- WriteOutput: a script's effect on the fold file is the content it leaves when it ends; a script that reads the file, or one still running afterwards, is not told apart.
- Consolidate: the candidates come from one query of a store keyed by id, so their ids are distinct; what the store returns is otherwise arbitrary.
- ApplyEvent: React may call the updater twice with the same queues; here each event is applied once.
- RenderingRoundTrip: file paths hold no line break; the reader understands headings and fenced blocks only, and ends lines at newlines. A reader that also ends them at carriage returns still sees no fence closed early (NoPieceCloses), but returns its own line endings.
- OrKeepsMeaningIff: see BlankIsLeast.
- PhraseIsConsecutiveWords: for texts and keywords made of word characters; other punctuation is a boundary of its own in the match.
- FittedIsPerFold: class names are capitalized words of small ASCII letters and digits; an acronym is a run of one-letter words. The keyword tables are a parameter; which techniques deserve a keyword is a judgement the source documents.
- Text: white space, letters and digits are ASCII; Unicode case folding and Unicode white space are not modelled.
- Paths: symbolic links, a leading double slash, and directories standing under the contract files' names are not modelled.
- The checks LangGraph's compile makes of its own (unreachable nodes, unknown edge ends) are not modelled.
- JSON and YAML grammars, Chroma, the LLM providers, Kaggle, arXiv, Tavily and MLflow clients, embeddings, subprocesses and signals are foreign calls: their answers are arbitrary values.
- Order of keys within written JSON objects: the validators fix it, the model compares objects as maps.
- Wording of error messages: a validator's ValueError is one value, except where the grounds matter.
- `previous_iteration`, `truncate` on its own, `render_inputs_section`, `_divergence`, path guards, settings loading and run-id validation: one-branch facts that would only add easy members.
- The chat WebSocket, the sidebar, the file viewer and the other React components: presentation.
