# Verified model of the evaluation layer

This project models the judge-evaluation and gold-set tooling under `eval/` and proves what it
promises. Every file is one module:

| module | what it models |
|---|---|
| `Rubric`, `Sequencing`, `Rounding`, `Sums` | the six-dimension rubric, loops that stop at the first error, rounding to three decimals, finite sums |
| `Agreement`, `Ac1` | quadratically weighted Cohen's kappa through a confusion matrix, and Gwet's AC1 |
| `McNemar`, `Migration`, `Adoption` | the exact paired test, the screening of a candidate judge, its hard gate and the adoption decision |
| `NRun`, `Deterministic` | fail-closed aggregation of N judge runs, and the code decisions merged over a judge's scores |
| `Validation`, `ValidationReport`, `ValidationLog`, `ValidationHard`, `ValidationStatus`, `ThresholdWitness` | the validation gate derived from two evidence artifacts that may be missing or malformed: what it demands, what it reports, and the computation |
| `Gold`, `GoldFiles`, `GoldLaws` | the gold sets as a state machine: ratification, relabelling, reference review, v6 rescore |
| `Labeler`, `LabelerOutcomes`, `Audit` | the tap-through labeling session, and blind audits that never reissue a card |
| `Checkpoint`, `Fetch` | scoring that resumes after crashes, and paged reading of an external table |
| `Policy`, `PolicyRules`, `Diff` | the rules baseline with its violation detector, the baseline against its published rules, and the structural diff of snapshots |

Code that works by updating state is modelled by classes and loops (`ScoreSheet`, `Files`,
`GoldQueue`, `AuditStore`, `Arm`, the kappa and AC1 loops, the report builders), each proved equal
to a specification function; what the code promises is then proved of that function for all
inputs, all runs or all interleavings. Coefficients and probabilities are exact reals.

`dafny verify dfyconfig.toml` verifies the whole project.

## What the proofs say about the code

- The hard kappa gate compares a kappa already rounded to three decimals with 0.6, so a kappa of
  0.5995 passes (`Rounding.GateThreshold`, `Validation.EffectiveThreshold`); seventeen ratings of
  kappa 280/467 are such a case (`ThresholdWitness.RoundedIntoTheGate`).
- Kappa's `0.0` fallback and AC1's `isclose(…, 1.0)` branch cannot be reached
  (`Agreement.MatrixKappa`, `Ac1.ChanceBound`, `Ac1.NeverClose`). With a single label AC1 divides
  by zero.
- For three or more runs an aggregate can pass, and not be flagged indeterminate, although no
  single run passes; this is exact in the number of runs (`NRun.HiddenFailure`). Raising a
  score can lose a pass, under an exact condition on the counts (`NRun.RaisedScoreLosesPass`).
- A score off the 1..3 scale in the compare artifact escapes the validation gate as a ValueError
  instead of becoming a structural failure, and a clean layer, arm table or gated arm of the
  wrong type raises AttributeError (`ValidationStatus.Escapes`, `ValidationStatus.OffScaleEscapes`).
- The overall fail-open blocker of the adoption decision is implied by the hard gate
  (`Adoption.OverallFailOpenRedundant`).
- The rules baseline documents that an email shared between accounts escalates, but the runner
  looks up the first contact only. `PolicyRules.SecondContactMissed` is an account that is contacted
  against that rule, and `PolicyRules.IdentityRuleHolds` is the exact condition under which the runner
  follows it.
- The published rules put the overdue state before the claimed completion and ask for *all* plans
  to claim it; the code tests the claim first and asks only the plans of unresolved objectives.
  `PolicyRules.DocumentedStates` and `PolicyRules.DocumentedDecisions` say exactly when the two
  agree; `PolicyRules.OutreachWithheld` is an account the rules would contact and the code only
  reviews, `PolicyRules.ClaimOfSomePlans` one in the wrong state without being late.
- The consent check of the violation detector is subsumed by its recipient check
  (`Policy.NoConsentImpliesIneligible`).
- The structural diff reads a missing key as None and does not tell a list from a tuple; up to
  that it is exact (`Diff.ReportedExactly`, `Diff.EmptyIffEquivalent`).
- The labeling loop does not terminate on every finite input: the score prompt repeats for ever
  once its input has ended, an outcome called `Starved` here. `LabelerOutcomes.SessionEnds` and
  `LabelerOutcomes.PipedSessionEnds` say exactly when.
- Resuming an arm gives the uninterrupted arm at every crash point exactly when candidate ids are
  distinct (`Checkpoint.ResumeSafeIffDistinct`).
- The paged read takes a page shorter than asked for as the end of the table, and believes any
  count: behind a page cap, or with a wrong count, it can stop early without saying so. It is
  complete exactly under `Fetch.Delivers` (`Fetch.FetchRecords`, `Fetch.SameCapDelivers`).
- A run of the audit with `--include-existing-audit` forgets the key it overwrites for good; later
  ordinary runs may issue those cards again (`Audit.FlaggedForgets`, `Audit.FlaggedThenReissued`).

## Model

| member | source | states |
|---|---|---|
| `Agreement.WeightedCohenKappa` | eval/judge_csm.py:384-419 | the matrix-filling loop returns `1 - n·Σ(hₜ-jₜ)² / ΣₛΣₜ(hₛ-jₜ)²` over label positions (1 when the crossed sum is 0), and raises ValueError exactly for unequal lengths, no scores or an off-scale score |
| `Agreement.MatrixKappa` | eval/judge_csm.py:400-419 | the weighted matrix and marginal sums reduce to the pairwise sums; when the expected disagreement is 0 so is the observed one, so the fallback is always 1 and never 0 |
| `Agreement.MatrixSum` | eval/judge_csm.py:401-414 | summing weight × cell over the confusion matrix is summing the weights of the items |
| `Agreement.ExpectedSum` | eval/judge_csm.py:405-415 | the marginal-product sum is the sum of weights over all pairs of one rating from each rater, divided by the item count |
| `Agreement.KappaRange` | eval/judge_csm.py:384-419 | kappa lies in [-1, 1]; it is 1 iff the raters agree on every item and -1 iff they mirror each other with some spread; a crossed sum of 0 means one constant score |
| `Agreement.Balance` | eval/judge_csm.py:410-419 | `n·Σ(a-b)² <= 2·ΣΣ(aₛ-bₜ)²` for any two real sequences, with equality iff they mirror each other |
| `Agreement.KappaSymmetric` | eval/judge_csm.py:384-419 | swapping the two raters leaves kappa unchanged |
| `Ac1.GwetAc1` | eval/judge_csm.py:422-465 | the counting loops compute the AC1 coefficient of the pooled coincidence rate; ValueError on the same inputs as kappa, ZeroDivisionError for a single label |
| `Ac1.SpreadSum` | eval/judge_csm.py:455-461 | `Σ p(1-p)` over the categories is one minus the rate at which two pooled ratings coincide |
| `Ac1.ChanceBound` | eval/judge_csm.py:453-461 | with k >= 2 labels the expected agreement is at most 1/k, reached iff all categories are used equally often |
| `Ac1.NeverClose` | eval/judge_csm.py:463-464 | an expected agreement of at most 1/2 never satisfies `isclose(…, 1.0)`: the fallback branch is unreachable |
| `Ac1.Ac1OfRange` | eval/judge_csm.py:461-465 | AC1 lies in [-1/(k-1), 1]; 1 iff the ratings are identical, the lower bound iff no item agrees and categories are used evenly |
| `Ac1.CoefficientRange` | eval/judge_csm.py:422-465 | the same range and the same condition for 1, on score sequences and label lists |
| `Rounding.RoundMonotone` | eval/judge_validation.py:165 | half-even rounding to three decimals is monotone |
| `Rounding.GateThreshold` | eval/judge_validation.py:165-166 | rounding before `< 0.6` makes the effective threshold 0.5995 |
| `ThresholdWitness.RoundedIntoTheGate` | eval/judge_validation.py:165-166 | seventeen ratings of kappa 280/467, below 0.6 and 0.6 once rounded |
| `McNemar.Reflection` | eval/judge_model_migration.py:379-382 | subsets of at most m members and of at most n-1-m members split all 2ⁿ subsets |
| `McNemar.TailCount` | eval/judge_model_migration.py:379-382 | the tail probability times 2ⁿ is the number of subsets of at most m members |
| `McNemar.DoubledTail` | eval/judge_model_migration.py:375-383 | twice the tail exceeds, equals or is below 2ⁿ exactly as \|b-c\| is 0, 1 or at least 2 |
| `McNemar.PValueRange` | eval/judge_model_migration.py:375-383 | the p-value is symmetric, in (0, 1], equal to 1 iff \|b-c\| <= 1, and the cap at 1 changes it iff b = c > 0 |
| `McNemar.SignificantCount` | eval/judge_model_migration.py:272-276 | significance at 0.05 is a comparison of subset counts |
| `McNemar.PValueMoves` | eval/judge_model_migration.py:375-383 | evidence for the leading side strictly lowers the p-value, evidence for the trailing side strictly raises it while the lead exceeds one |
| `McNemar.VerdictMonotone` | eval/judge_model_migration.py:271-276 | one more case only the baseline got right never clears a regression; one more only the candidate got right never creates one; dually for improvement |
| `McNemar.VerdictSwap` | eval/judge_model_migration.py:271-276 | swapping the discordant counts swaps regressed and improved |
| `McNemar.SixPairs` | eval/judge_model_migration.py:271-276 | some split of n discordant pairs reaches a verdict iff n >= 6 |
| `NRun.AggregateRuns` | eval/judge_nrun.py:26-50 | the dimension-by-dimension fill computes minimum safety and the lowest mode elsewhere, the pass, the rounded pass rate and the indeterminate flag; ValueError iff there is no run |
| `NRun.OrderIrrelevant` | eval/judge_nrun.py:26-50 | permuting the runs changes nothing in the aggregate |
| `NRun.PassImpliesMinorityFailures` | eval/judge_nrun.py:31-43 | in a passing aggregate no run scored safety 1 and every dimension was scored 1 in strictly fewer than half the runs |
| `NRun.FewFailuresForcePass` | eval/judge_nrun.py:31-43 | on 1..3 scores, no safety 1 and strictly fewer than a third at 1 elsewhere force a pass |
| `NRun.SafetyFailsClosed` | eval/judge_nrun.py:33-43 | a run with failing safety fails every list of runs that contains it |
| `NRun.HiddenFailure` | eval/judge_nrun.py:41-48 | a determinate passing aggregate with no passing run exists iff n >= 3 |
| `NRun.RaisedScoreLosesPass` | eval/judge_nrun.py:31-43 | `aggregate` is not monotone: raising one score of one run loses a pass iff a 2 becomes a 3 outside safety while the 1s there equal or outnumber the 2s and 3s that result |
| `NRun.ModeNotMonotone` | eval/judge_nrun.py:36-40 | that condition is met: five scores whose mode drops from 2 to 1 |
| `NRun.ScoreAgreement` | eval/judge_nrun.py:53-80 | the loop reports exactly the false positives, false negatives, indeterminate ids, exact matches and rounded repeatability, in item order |
| `NRun.ConfusionPartition` | eval/judge_nrun.py:57-68 | false positives, false negatives and agreements partition the cases; exact matches are disjoint from both kinds of error |
| `Deterministic.ScoreSheet.ApplyDeterministic` | eval/deterministic_quality.py:261-285 | the in-place merge of scores and reasons is the overrides, then the assignments, then the floors that lower |
| `Deterministic.AppliedAt` | eval/deterministic_quality.py:261-285 | what every dimension ends with: the overriding score, the floored score, or the score it had; no dimension is both overridden and floored |
| `Deterministic.Idempotent` | eval/deterministic_quality.py:261-285 | merging twice is merging once, scores and reasons alike |
| `Deterministic.NeverRaises` | eval/deterministic_quality.py:233-258 | outside the overridden dimensions no score goes up, whatever it was |
| `Deterministic.MergeCommutes` | eval/deterministic_quality.py:261-285 | for runs on 1..3, aggregating merged runs gives the vector of merging the aggregated run |
| `Deterministic.GateCommutes` | eval/deterministic_quality.py:261-285 | and the same gate verdict |
| `Validation.ColumnsDecode` | eval/judge_validation.py:162-165 | both columns of a dimension can be read and scored iff every case holds a 1..3 score on both sides |
| `Validation.ColumnsOffScale` | eval/judge_validation.py:162-165 | reading them fails with ValueError iff all cells are there and the first one that is not a 1..3 score is a number |
| `Validation.FalseNegativeCharged` | eval/judge_validation.py:174-192 | every aggregate false negative is charged to at least one dimension |
| `Validation.EffectiveThreshold` | eval/judge_validation.py:165-166 | a dimension clears the recomputed hard gate iff its exact kappa is at least 0.5995 |
| `Validation.GateIsAllDimensions` | eval/judge_validation.py:81-255 | over every pair of artifacts, sound or defective, the gate holds iff every dimension holds |
| `ValidationStatus.CheckClean` | eval/judge_validation.py:102-125 | adds exactly the failures of the clean layer, overall, structural and per dimension |
| `ValidationHard.CheckKappas` | eval/judge_validation.py:161-195 | an off-scale score met first escapes as ValueError; otherwise adds exactly the low kappas of the dimensions read and the malformed-cases failure, and leaves the kappas and AC1 values of exactly those dimensions |
| `ValidationHard.CheckFalseNegatives` | eval/judge_validation.py:174-204 | the failure lists exactly the ids passed though the reference fails them, in case order, and each dimension exactly the ids charged to it |
| `ValidationHard.CheckHard` | eval/judge_validation.py:134-204 | adds exactly the failures of the hard layer, and leaves exactly its kappas and AC1 values |
| `ValidationStatus.CheckProvenance` | eval/judge_validation.py:206-238 | adds exactly the structural failures of model ids and prompt versions |
| `ValidationStatus.JudgeValidationStatus` | eval/judge_validation.py:81-322 | raises exactly on the escaping errors; otherwise the failures, the exclusions of each dimension, the kappas and the AC1 values are exactly those of the evidence, `validated` iff the gate holds, and a dimension is listed as validated iff that dimension holds |
| `ValidationReport.ReportMeansGate` | eval/judge_validation.py:81-255 | over every pair of artifacts, no failure is reported iff the gate holds |
| `ValidationReport.BlameMeansDimension` | eval/judge_validation.py:240-255 | and none is charged to a dimension iff that dimension holds |
| `ValidationStatus.OffScaleEscapes` | eval/judge_validation.py:161-193 | a one-case artifact with a judge score of 4 that escapes as ValueError |
| `ValidationStatus.ScopedGating` | eval/judge_validation.py:56-78 | a scoped claim is accepted iff the request is non-empty and each requested dimension is known and holds; the full set iff the whole gate holds |
| `Migration.VerdictFollowsEvidence` | eval/judge_model_migration.py:253-291 | the monotonicity of the verdict on lists of paired cases; concordant cases change nothing |
| `Migration.ArmsExchange` | eval/judge_model_migration.py:253-291 | exchanging the arms exchanges the verdicts and keeps the p-value |
| `Migration.DiscordanceIsNetLoss` | eval/judge_model_migration.py:259-270 | b - c is the difference in correct answers |
| `Migration.FewPairsNoVerdict` | eval/judge_model_migration.py:269-276 | fewer than six discordant pairs never give a verdict |
| `Migration.PairedDimensionReport` | eval/judge_model_migration.py:188-219 | the loop over sorted ids builds the comparison of one dimension: pairs, false passes of both arms, verdict |
| `Migration.PairedOverallReport` | eval/judge_model_migration.py:222-250 | the same for the overall verdict |
| `Adoption.HardGateReport` | eval/judge_model_migration.py:294-317 | kappa per dimension, rounded, and the ids passed against the reference, in case order; ValueError iff the cases cannot be graded |
| `Adoption.GatesAgree` | eval/judge_validation.py:161-192 | on cases whose aggregate reports its own pass, the validation gate and the migration gate compute the same kappas, report the same low ones and list the same false-pass ids, although their arguments are swapped |
| `Adoption.AggregatesAreTruthful` | eval/judge_nrun.py:41-50 | every case produced by `aggregate` is such a case |
| `Adoption.BuildMigrationReport` | eval/judge_model_migration.py:131-185 | the report carries exactly the blockers of the gate, of each dimension and of the overall comparison; there is none iff the gate passes and no comparison regressed or opened new false passes |
| `Adoption.OverallFailOpenRedundant` | eval/judge_model_migration.py:320-334 | a candidate that passes its gate has no overall false pass, so the overall fail-open blocker can never be the only one |
| `Adoption.SelfMigration` | eval/judge_model_migration.py:131-152 | a model screened against itself is adopted iff its own gate passes |
| `Gold.HardKeyErrors` | eval/gold_slot_b_hard.py:711-752 | an error is reported iff its condition applies (ids, family counts, unknown family, malformed vector, inconsistent intent, missing trap), so none iff the key is valid |
| `Gold.PassOfVector` | eval/gold_slot_b_hard.py:447 | the short-circuiting pass test over a full vector never raises and is the overall pass |
| `GoldFiles.Files.Ratify` | eval/gold_slot_b_hard.py:417-464 | the in-place loop appends records and key entries as the specification says, or raises and leaves the files alone |
| `GoldFiles.Files.Relabel` | eval/gold_slot_b_hard.py:555-605 | the same for on-task relabelling |
| `GoldFiles.Files.Review` | eval/apply_reference_review.py:60-137 | the same for the reference review of the clean labels and the hard key |
| `GoldFiles.Files.Rescore` | eval/apply_v6_ontask_rescore.py:86-165 | the same for the v6 rescore |
| `GoldLaws.RatifyKeeps` | eval/gold_slot_b_hard.py:417-464 | ratification keeps integrity: ids match, vectors total over 1..3, intended dimensions exactly the failing ones in order, pass flags matching the scores |
| `GoldLaws.RelabelKeeps` | eval/gold_slot_b_hard.py:555-605 | so does on-task relabelling |
| `GoldLaws.ReviewKeeps` | eval/apply_reference_review.py:80-114 | so does reference review, which never validates its result |
| `GoldLaws.RescoreKeeps` | eval/apply_v6_ontask_rescore.py:98-154 | on an intact store the rescore succeeds and keeps integrity |
| `GoldLaws.IntegrityForever` | eval/gold_slot_b_hard.py:711-752 | integrity survives every interleaving of the four scripts |
| `GoldLaws.IdsKeptForever` | eval/gold_slot_b_hard.py:428-434 | no run of scripts removes a record from the hard layer |
| `GoldLaws.RatifiedOnce` | eval/gold_slot_b_hard.py:431-434 | a ratified expansion is refused ever after, whatever runs in between |
| `GoldLaws.RatifiedFromLabels` | eval/gold_slot_b_hard.py:431-464 | each appended key entry holds the labeler's scores, is new, and intends exactly its failing dimensions; older entries are untouched |
| `GoldLaws.NeverUnfails` | eval/apply_v6_ontask_rescore.py:122-154 | the hard rescore never lifts a failing cell to a pass nor drops an intended dimension |
| `GoldLaws.RescoreIdempotent` | eval/apply_v6_ontask_rescore.py:98-154 | on an intact store, rescoring twice is rescoring once |
| `GoldLaws.RescoreKeySettles` | eval/apply_v6_ontask_rescore.py:125-154 | the same for one key entry, whatever record it belongs to |
| `GoldLaws.RescoreAgreesWithJudge` | eval/apply_v6_ontask_rescore.py:69-83 | the judge's merge leaves on-task and tone at the value the rescore decides, or unchanged when it decides none |
| `GoldLaws.CleanMatchesJudge` | eval/apply_v6_ontask_rescore.py:99-120 | after the rescore the merge no longer moves on-task or tone on a clean record |
| `Audit.BuildAudit` | eval/diagnose_judge.py:169-233 | one blind card and one key entry per selected cell, in order, none excluded; the key holds the score both sides agree on |
| `Audit.SortProperties` | eval/diagnose_judge.py:155-166 | the sort keeps the cells and orders them by hash |
| `Audit.AuditStore.Run` | eval/diagnose_judge.py:379-399 | one run: the new history and key, and the cards issued |
| `Audit.RunIsFresh` | eval/diagnose_judge.py:379-399 | a run issues no id twice and none that it had to leave out |
| `Audit.BurnedIsIssued` | eval/diagnose_judge.py:380-399 | over any runs without the include flag, history ∪ key is what was burned before plus everything issued since |
| `Audit.NeverReissued` | eval/diagnose_judge.py:380-399 | no id is issued twice, even when the agreed cells change between runs |
| `Audit.RunsIssueSlices` | eval/diagnose_judge.py:182-186 | with fixed cells run k issues exactly the k-th slice of the sorted candidates, until they are exhausted |
| `Audit.FlaggedForgets` | eval/diagnose_judge.py:383-386 | what a flagged run un-burns: exactly the ids of the overwritten key that are neither in the history nor issued again; an ordinary run un-burns nothing |
| `Audit.BurnedExactly` | eval/diagnose_judge.py:380-399 | after any runs, flagged or not, an id is burned iff it was in the history, was saved by an ordinary run right after the one that issued it, or was issued by the last run |
| `Audit.IncludingReissues` | eval/diagnose_judge.py:383 | a flagged repetition issues the same cards again |
| `Audit.FlaggedThenReissued` | eval/diagnose_judge.py:383-399 | so does an ordinary repetition once a flagged run of size 0 came in between |
| `Labeler.LabelErrors` | eval/gold_slot_b_quality.py:287-313 | an error is reported iff its condition applies, so none iff the label is valid |
| `Labeler.GoldQueue.LabelFile` | eval/label_gold.py:74-129 | the session over the file: outcome, records in memory and every write, with the file equal to memory at the end |
| `Labeler.GoldQueue.LabelFrom` | eval/label_gold.py:95-129 | the loop: everything before the index is labelled and file equals memory at each loop head |
| `Labeler.GoldQueue.UndoBack` | eval/label_gold.py:118-125 | `back` drops the label just saved and the one before it, writing each time |
| `Labeler.RunGuarantees` | eval/label_gold.py:95-129 | from any index with everything before it labelled: only labels change, "all labeled" is reported only when true, every label written is valid for a non-blank labeler, every write likewise |
| `Labeler.SessionGuarantees` | eval/label_gold.py:74-129 | the same for a whole session on any tape |
| `LabelerOutcomes.OutcomeIsEnding` | eval/label_gold.py:95-129 | the session ends as a machine over its open cards alone: an answer closes the first, `b` reopens the one before it |
| `LabelerOutcomes.SessionEnds` | eval/label_gold.py:74-129 | counting answers and `b` commands away from card 0: it never returns iff no `q` is entered and a card is left after every command; completes iff none is left at some point before any `q`; stops iff a `q` comes while cards are left |
| `LabelerOutcomes.PipedSessionEnds` | eval/label_gold.py:199-211 | away from a terminal it completes iff the input holds a complete answer for each open card, and otherwise never returns |
| `LabelerOutcomes.EmptyTapeStarves` | eval/label_gold.py:205-211 | without input any session with an open card never returns |
| `LabelerOutcomes.OneCardStarves` | eval/label_gold.py:205-211 | in particular on one unlabeled record |
| `Labeler.BackUndoes` | eval/label_gold.py:106-125 | answering and stepping back leaves the same outcome and records as never having answered, one card earlier |
| `Labeler.QuitThenResume` | eval/label_gold.py:115-126 | quitting after a card and starting again on the saved file leaves the records of going straight on |
| `Checkpoint.ScoreWithRetry` | eval/judge_model_migration.py:386-396 | stops on success, on a non-retryable failure or on the last attempt |
| `Checkpoint.ScoreWithRetryAll` | eval/_gen_judge_compare_cotN.py:74-85 | the other retry loop gives the same result |
| `Checkpoint.RetrySucceeds` | eval/judge_model_migration.py:386-396 | a call succeeds iff some attempt within the limit is scored after retryable failures only |
| `Checkpoint.Arm.Run` | eval/judge_model_migration.py:90-128 | one attempt over the items: what it leaves in the checkpoint, dying anywhere, and its report if it completes |
| `Checkpoint.CrashesAreHarmless` | eval/_gen_judge_compare_cotN.py:103-139 | with distinct ids, after any attempts that die anywhere the checkpoint holds the first cases in item order, one each, only ever grows, and is full when an attempt completes |
| `Checkpoint.ResumeRefinesUninterrupted` | eval/judge_model_migration.py:90-128 | with a deterministic judge every checkpoint is a prefix of the crash-free list, and a completed arm and its report are the crash-free ones |
| `Checkpoint.RepeatedIdDiverges` | eval/judge_model_migration.py:98-125 | in any list with a repeated id, dying after its first occurrence and resuming completes with fewer cases than the uninterrupted run |
| `Checkpoint.ResumeSafeIffDistinct` | eval/judge_model_migration.py:98-125 | with a judge that scores every item, dying at any point and resuming gives the uninterrupted arm iff no id is repeated |
| `Fetch.FetchRecords` | eval/external_corpus_probe.py:120-171 | whatever the server, a prefix within the limit; all that is wanted iff no page is cut short of it and no count ends the rows early; which requests are made; on a truthful table the flag is right |
| `Fetch.TruthfulDelivers` | eval/external_corpus_probe.py:122-153 | with truthful counts the read is complete iff each request on the way may return what is wanted of it |
| `Fetch.SameCapDelivers` | eval/external_corpus_probe.py:122-153 | with one cap for all pages: iff the cap admits a full page, the whole limit or the whole table |
| `Fetch.CappedReadStops` | eval/external_corpus_probe.py:150-151 | a truthful table of two rows behind a cap of one is not read to its end |
| `Fetch.FalseCountStops` | eval/external_corpus_probe.py:152-153 | nor is one whose count says one |
| `Policy.ObjectiveState` | eval/customer_outcome_comparison.py:135-153 | the loops compute the state below |
| `Policy.StateOf` | eval/customer_outcome_comparison.py:135-153 | no plan, verified, claimed complete, overdue or in progress, said of the account as a whole and in that order of priority |
| `Policy.Outcomes` | eval/customer_outcome_comparison.py:170-221 | when an account is escalated, contacted or held, and that only a proposal names a recipient (the first consenting contact) and a purpose |
| `Policy.Evidence` | eval/customer_outcome_comparison.py:176-187 | what a decision cites: every open case of the account for a blocker, else its open high-priority CTAs, and nothing otherwise |
| `Policy.DecisionNeedsRelevant` | eval/customer_outcome_comparison.py:156-221 | the decision, its evidence and recipient are a function of the account's own consenting contacts, open items, plans, matching milestones and recent signals only |
| `Policy.ClosedItemsIgnored` | eval/customer_outcome_comparison.py:120-125 | a closed case and a closed CTA inserted anywhere in the book change no decision |
| `Policy.OpenItemsOnlyRaise` | eval/customer_outcome_comparison.py:176-221 | opening items leaves the verdict and recipient, or escalates, or turns a hold into a review: never towards hold or outreach |
| `Policy.StateOverTime` | eval/customer_outcome_comparison.py:139-153 | over fixed facts no plan and verified are permanent, claimed complete can only become verified, and with no new achievement only in progress → overdue can happen |
| `Policy.StateOverRun` | eval/customer_outcome_comparison.py:139-153 | the same between any two days of a run that never goes back |
| `Policy.VerifiedIsFinal` | eval/customer_outcome_comparison.py:191-195 | once verified, the whole decision is the same on every later day and is never outreach |
| `Policy.RunBaseline` | eval/customer_outcome_comparison.py:224-237 | a decision for exactly the accounts with a contact; the last point of an account wins; only the first contact is looked up |
| `PolicyRules.IdentityRuleHolds` | eval/customer_outcome_comparison.py:90-91 | the runner takes the documented decision iff the first contact already shows the ambiguity, if there is one |
| `PolicyRules.SecondContactMissed` | eval/customer_outcome_comparison.py:229-236 | a point whose second contact is shared with another account and is nevertheless proposed for outreach |
| `Policy.ForbiddenViolations` | eval/customer_outcome_comparison.py:294-308 | a violation is reported iff its condition applies, each once |
| `PolicyRules.DocumentedStates` | eval/customer_outcome_comparison.py:97-104 | the state is the documented one iff the claim does not decide: not (unresolved plans all claim completion, and one is late or some other plan makes no claim); there the code says claimed complete, the rules overdue or in progress |
| `PolicyRules.DocumentedDecisions` | eval/customer_outcome_comparison.py:97-117 | the decision is the documented one iff the account is escalated anyway or the claim does not decide; where they part the code reviews what the rules would contact, hold or review for another reason |
| `PolicyRules.ClaimHidesLateness` | eval/customer_outcome_comparison.py:147-148 | any one plan that claims completion past its date is in that family |
| `PolicyRules.OutreachWithheld` | eval/customer_outcome_comparison.py:147-205 | an account the rules would contact and the code reviews |
| `PolicyRules.ClaimOfSomePlans` | eval/customer_outcome_comparison.py:147-148 | two plans, one finished without a claim: claimed complete where the rules say in progress |
| `Policy.NoConsentImpliesIneligible` | eval/customer_outcome_comparison.py:298-305 | the consent check never finds anything the recipient check does not |
| `Policy.BaselineNeverViolates` | eval/customer_outcome_comparison.py:156-221 | when the book lists only the point's own contacts for its account, no consent or recipient violation, and a purpose violation iff another purpose is demanded of a proposal |
| `Policy.SuiteNeverViolates` | eval/customer_outcome_cases.py:382-429 | over the book built from any suite without strangers, the runner's decisions violate at most the outright forbidden set |
| `Diff.ReportedExactly` | eval/customer_outcome_comparison.py:375-384 | a path is reported iff both sides have the location and differ there outright, and nowhere above it |
| `Diff.ChangedSymmetric` | eval/customer_outcome_comparison.py:375-384 | swapping the sides gives the same report, in the same order |
| `Diff.EmptyIffEquivalent` | eval/customer_outcome_comparison.py:375-384 | the report is empty iff the values are equal after dropping None entries and reading tuples as lists, at every depth |
| `Diff.UntouchedAgree` | eval/customer_outcome_comparison.py:375-384 | at every location neither at, below nor above a reported path, both sides hold equivalent values or neither has the location |
| `Diff.ReportOrdered` | eval/customer_outcome_comparison.py:376-383 | the report is strictly increasing, so it repeats nothing and lists no path inside another |

## Left out

- Floating-point arithmetic: kappa, AC1 and the p-value are exact reals, so rounding error, the
  underflow of `0.5 ** n` and the overflow of `comb` for very large n are not modelled; `round` is
  half-even on exact values.
- JudgeValidationStatus: failures are values; their wording, their sorting as text and the method,
  clean-layer and evidence fields copied into the status are omitted.
- AssertGating: the returned set is not sorted, and a status dictionary made up by the caller is
  not modelled.
- BuildMigrationReport: gate blockers come in rubric order, where the original sorts their
  messages as text; usage, cost and claim-boundary fields are omitted.
- Booleans and floats standing for integers in JSON are not distinguished from integers, except
  where a cell cannot be looked up at all.
- Text tests (lexicons, factor names, caps, citations, blank strings of Unicode spaces) are boolean
  facts about a request and an output; SHA-256 is an injective id and an arbitrary sort key.
- Files are in-memory values. `GoldQueue` and `Arm` treat each write as atomic; a crash in the
  middle of a checkpoint write, which is not atomic in the original, is not modelled. The gold scripts
  write two files one after the other; a crash between the two is not modelled.
- The change logs, counters, conflict lists and reports that the gold scripts write beside the
  gold files.
- Checkpoint: sleeps between retries and progress output; the checkpoint is assumed to hold a list.
- Labeler: card rendering, terminal modes and the text of prompts; a tape is a list of stripped lines.
- Fetch: the HTTP call, header parsing and the rejection of non-list payloads; a server is a table
  with a cap and an optional count per request, and does not change while it is read.
- Policy: parsing of date text (a field is a day or not a date; an unparsable `as_of` raises in the
  original), the wording of reasons, and the Ultra policy it is compared with, whose engine is not
  part of this model.
- Diff: path text. Paths are lists of steps, because the text form of a key containing a dot or of
  a leading dot is ambiguous; keys are integers standing for any sorted key type.
- Judges, model calls, prompts, cost accounting, batteries, demos, fixture builders and Markdown
  rendering: fixed inputs compared with fixed outputs, or calls to outside systems.
- Drift power, quality regression, autonomy and reference-review reports: counting and clamping
  that would add only easy members.
