# Verification of the factor-research core

A Dafny model of the parts of the factor-research service whose correctness spans several functions or
whole runs, with machine-checked proofs. `dafny verify dfyconfig.toml` checks everything.

## What is modelled

**The Final-OOS run protocol** (`Oos*.dfy`, `InMemoryOosRunRepository.dfy`, `PostgresOosRunRepository.dfy`).
`OosProtocol` gives every repository transaction as a function on a value. Both repositories are classes
whose methods are proved equal to those functions. `OosSystem` is a step system: clock ticks, spawns,
crashes, faults, external authorization and invalidation, and workers that make one repository call per
step. A call may raise before its effect, or take effect and lose its reply. `OosRunService` is the service's
own control flow, proved to be a schedule of that system whatever happens to its calls. The proofs are in
rely-guarantee style: `OosSafety` states the invariants and what a step may change, `OosTheorems`,
`OosConfluence`, `OosRecovery`, `OosLaws`, `OosInvalidation`, `OosDrift` (inputs that changed since a checkpoint) and
`OosGuarantees` (what a sealed cohort and an exception mean) the results, and `OosEquivalence` that the
database (`OosDatabase`) leads to the same states. The assumptions of the protocol are in
`OosSystem.Admissible`: one live worker per owner id and authorization, fresh run ids, and no lost reply of a
granted seal. Each is needed: `OosLimits` shows how two live calls of one caller seal twice and how a lost reply
undoes a seal, and `OosLaws.ReusedRunIdErasesASeal` what a reused run id does. Where a result depends on what the
evaluators return, `OosSystem.Allowed` says so about the candidates of each call, and about nothing else.

**The factor language** (`Vocab`, `Ops`, `OpsLaws`, `StackVM`, `Lookback`, `LookbackPaths`, `CrossSection`,
`Correlation`, `WindowLaws`, `FormulaLaws`, `Mutation`).
A panel is a sequence of day columns of optional reals. All operators are concrete; logarithm and square root
are parameters. The static look-back analysis is an abstract interpretation of the programs the machine runs,
and is proved exact; `LookbackPaths` says what it is of the expression that the program is. `FormulaLaws` says of every
operator what the machine leaves for it, in terms of the feature panels alone.

**Leak-free evaluation** (`Windows`, `Fitness`, `FitnessLaws`, `FeaturePanel`, `Discovery`, `DiscoveryLaws`, `RawBars`,
`Search`, `SearchLaws`, `Deduplicate`). From window construction over the index footprint of one evaluation to the
end-to-end statement that a candidate's discovery evidence cannot depend on the holdout. Whether there is evidence at all can: the machine's final test
for an all-missing panel looks at every day, and `Discovery.SameEvaluationIff` says exactly when that matters.

**Multiple testing** (`Sorting`, `MultipleTesting`). The array code refines definitions that mention no sort
order, and the statistical laws are proved about those.

**Dataset sampling, tie-averaged ranks, tradability** (`Sampler`, `SamplerLaws`, `SymbolSplit`, `TieRanks`,
`Tradability`, `TradabilityLaws`) and **the model registry** (`Registry`, `RegistryLaws`, `ModelRegistry`).

The modules named `...Laws` say what the computed figures and records mean without naming the function that computes
them: by an equation between results, by sums and cardinalities of sets, or by the calls that led there.

## Conventions

- `Wrappers`, `Numbers`, `Sequences` and `Text` hold what several modules share.
- Hashes are symbolic: a digest is the structure it was computed from, so equal digests mean equal material.
- Floats are reals and dates, moments and clocks are integers.
- Exceptions are `Failure` values or `None`.
- Every object with mutable fields is a class; each method's contract equates the new fields with a function of
  the old ones, and the laws are proved about that function.
- `hide` statements keep definitions that a proof does not need away from the solver.

## Where the code differs from its documentation

- `_content_feature_panel` is documented to show a signal from the first trading day after its `available_from`
  timestamp. The code shows it on its own date exactly when that is a trading day and the signal is available by
  09:25 (`FeaturePanel.ShownTheSameDayIff`, with an instance in `FeaturePanel.ShownOnItsOwnDay`), and otherwise
  from the next date on (`FeaturePanel.ShownFirstOn`).
- `canonical_candidates` is documented as applying a budget; a budget of zero lets one candidate through, and
  `Search.BudgetExceededIff` says that nothing else does.
- The feature `ret` counts as look-back 1 but is built from two closes. `RawBars` gives the analysis that counts
  it as two, proves it exact over bars, and concludes for which programs the look-back of the code is enough.
- A negative amount of a valid symbol can make a tradability assessment raise on its own artifact;
  `Tradability.AcceptedForEveryFactorIff` says exactly for which amounts no factor can.
- `INVALIDATED` is not final: `_owned` never reads the authorization's status. `OosInvalidation` gives the exact
  condition under which an invalidation sticks, and the calls that lead to a state in which it does not.
- The two `build_research_split` functions differ; `Windows.SplitsAgreeIff` says exactly when, and
  `Windows.SplitsDiffer` gives an input.
- `owner_id` has a default, so two live calls can share it. On one authorization they then share the fencing
  token, and both seal (`OosLimits.TwinsSealTwice`).

## Model

| member | source | states |
|---|---|---|
| OosTheorems.SealedExactlyOnce | src/stock_factor/application/oos_run_service.py:82-170 | in every state that any admissible schedule of calls, ticks, crashes, faults, takeovers and invalidations reaches, no authorization is sealed twice, and it is CONSUMED if and only if exactly one completed seal names it |
| OosTheorems.TerminalRunIsFrozen | src/stock_factor/ports/oos_run_repository.py:111-241 | once a run is SEALED or FAILED_TERMINAL no continuation changes its record, its checkpoints, the outcome of its authorization, or any stored artifact |
| OosTheorems.StepKeepsInv | src/stock_factor/ports/oos_run_repository.py:111-241 | one admissible step of anybody keeps the protocol invariant and freezes whatever had ended |
| OosTheorems.RunKeepsInv | src/stock_factor/application/oos_run_service.py:68-170 | the invariant holds along every admissible schedule |
| OosTheorems.SealedTwiceIsImpossible | src/stock_factor/ports/oos_run_repository.py:212-226 | a seal is never granted for an authorization that an earlier seal names |
| OosTheorems.WorkerStable | src/stock_factor/ports/oos_run_repository.py:232-241 | what a live worker relies on survives every step of another caller: fencing protects it |
| OosTheorems.SealingJustified | src/stock_factor/application/oos_run_service.py:125-162 | a sealed call stores exactly the rows it checkpointed, with the hash of those rows |
| OosTheorems.SealingHash | src/stock_factor/application/oos_run_service.py:125-148 | the rows of a cohort that passed the identity check have distinct candidates, so hashing them cannot raise |
| OosSafety.UpdateGuarantee | src/stock_factor/ports/oos_run_repository.py:111-210 | a write of one run and its authorization that keeps identities, moves the token forward and leaves terminal runs alone keeps the repository invariant, the rely relation and everything that ended |
| OosSafety.StartWrites | src/stock_factor/ports/oos_run_repository.py:111-163 | a successful start writes a RUNNING run of the caller and binds it to an EVALUATING authorization |
| OosSafety.InterruptWrites | src/stock_factor/ports/oos_run_repository.py:199-210 | interrupting is such a write for a holder and nothing otherwise |
| OosSafety.PutWrites | src/stock_factor/ports/oos_run_repository.py:185-197 | for a holder whose key is unwritten a put either stores the checkpoint or reports a lease error and changes nothing |
| OosSafety.SealWrites | src/stock_factor/ports/oos_run_repository.py:212-226 | for a holder a seal either writes run, authorization and artifact together or reports a lease error and changes nothing |
| OosSafety.SealGuarantee | src/stock_factor/ports/oos_run_repository.py:212-226 | sealing keeps the invariant, everybody else's assumptions and everything that ended |
| OosConfluence.EveryRowWasEvaluated | src/stock_factor/application/oos_run_service.py:110-162 | whatever the evaluators and the interleaving, every checkpoint is a value that the evaluator of a call made for this very authorization has on a candidate of that call, and every result gathered and every sealed row was evaluated on a candidate that equals the one at its position in everything but the excluded keys |
| OosConfluence.SealedCohortIsUninterrupted | src/stock_factor/application/oos_run_service.py:110-162 | if the evaluators of all calls for one authorization agree, on the candidates of those calls, with one function of the input hash, a sealed cohort of that authorization is the one an uninterrupted call produces, whatever calls for other authorizations evaluate |
| OosConfluence.SealedCohortsAgree | src/stock_factor/domain/oos_run.py:181-196 | under the same assumption two schedules that seal the same run id over the same inputs, in any candidate order and however often interrupted, store the same rows up to order and the same cohort hash |
| OosDrift.DriftLaw | src/stock_factor/application/oos_run_service.py:109-170 | over every admissible schedule a worker goes on with a stored checkpoint exactly when it was evaluated on an input that equals its own in everything but the excluded keys; otherwise the run fails for good and, if nobody has taken it over, its interrupt leaves FAILED_TERMINAL and INVALIDATED under every continuation |
| OosDrift.ReusedIffSameInput | src/stock_factor/application/oos_run_service.py:109-119 | the step itself: the stored result is reused if and only if the stored input is the worker's own |
| OosDrift.DriftEndsTheRun | src/stock_factor/application/oos_run_service.py:115-170 | the two steps of a worker that meets another input seal nothing and end the run for its holder |
| OosGuarantees.SealedCohortsAreAuthentic | src/stock_factor/application/oos_run_service.py:85-162 | over every admissible schedule a sealed cohort has exactly the authorized candidates, none of them made for another dataset, market or content, its authorization is CONSUMED, and the stored artifact names that authorization and has the result of each candidate in the caller's order |
| OosGuarantees.IdentityOkIff | src/stock_factor/application/oos_run_service.py:94-107 | the identity checks pass if and only if the candidates rearrange the authorized ones and no field they give differs from the authorization |
| OosGuarantees.UnauthorizedFails | src/stock_factor/application/oos_run_service.py:94-107 | any other cohort fails for good before a checkpoint is read |
| OosGuarantees.FaultLaw | src/stock_factor/application/oos_run_service.py:114-170 | an exception leaves the repository alone: lease errors pass through unless the evaluator raises them, identity errors lead to a terminal interrupt, everything else to a resumable one |
| OosGuarantees.InterruptLaw | src/stock_factor/ports/oos_run_repository.py:199-210 | the interrupt leaves FAILED_TERMINAL and INVALIDATED, or INTERRUPTED and EVALUATING_INTERRUPTED, as the exception was, unless the run was taken over; then it changes nothing |
| OosGuarantees.InterruptedIsResumed | src/stock_factor/ports/oos_run_repository.py:111-163 | after a resumable interrupt the next start of the same evaluator version gets the same run with all its checkpoints |
| OosGuarantees.LostRunStoresNothing | src/stock_factor/application/oos_run_service.py:121-162 | a worker whose run was taken over stores neither checkpoint nor seal and reports a lease error |
| OosGuarantees.AuthorizeTwice | src/stock_factor/ports/oos_run_repository.py:85-95 | a second authorization of an experiment succeeds if and only if it asks for the same candidates, dataset, market and content |
| OosRecovery.CohortCanAlwaysBeSealed | src/stock_factor/application/oos_run_service.py:85-162 | from every reachable state in which the authorization is open, no foreign lease is live and stored checkpoints have the cohort's inputs, a schedule of this worker alone ends with the cohort sealed |
| OosRecovery.LoopFinishes | src/stock_factor/application/oos_run_service.py:95-124 | the evaluation loop of a holder with a live lease reaches the end of the cohort |
| OosRecovery.CollectionSeals | src/stock_factor/application/oos_run_service.py:125-162 | from the end of the loop the rows are collected and sealed |
| OosLaws.ResumeLaw | src/stock_factor/ports/oos_run_repository.py:111-163 | a start on a bound authorization is granted if and only if the lease is free or the caller's own, ids and version agree; then the token is kept or grows by one |
| OosLaws.FirstStartLaw | src/stock_factor/ports/oos_run_repository.py:111-163 | the first start binds a new run with token 1 |
| OosLaws.TakeoverNeedsAnExpiredLease | src/stock_factor/ports/oos_run_repository.py:128-163 | in one step a token stays or grows by one, it grows only after the lease expired, and without growth the owner stays |
| OosLaws.RunPersists | src/stock_factor/ports/oos_run_repository.py:111-197 | over every schedule a bound run id is never rebound, tokens never decrease, no checkpoint is overwritten or removed |
| OosLaws.CheckpointsNeverConflict | src/stock_factor/application/oos_run_service.py:114-124 | the write-once conflict never reaches a worker: a put stores the value or reports a lease error |
| OosLaws.DivergencesAreUnreachable | src/stock_factor/adapters/postgres/oos_run_repository.py:160-221 | a run a worker still owns is not terminal, its sealing hash exists and carries the run id, and neither the artifact table nor the unique index on run ids knows that run |
| OosEquivalence.WorkerMeetsNoIntegrityError | src/stock_factor/adapters/postgres/oos_run_repository.py:74-221 | so no transaction of a worker breaks a unique key or passes a check that the in-memory repository would not: each has the outcome of the protocol function |
| OosEquivalence.DatabaseFollows | src/stock_factor/adapters/postgres/oos_run_repository.py:74-221 | from every state of the protocol an admissible schedule over the database reaches the state it reaches over the protocol functions, and keeps the unique index in step with the artifacts |
| OosEquivalence.SameProtocol | src/stock_factor/adapters/postgres/oos_run_repository.py:36-221 | in particular from the empty tables |
| OosLaws.ReusedRunIdErasesASeal | src/stock_factor/ports/oos_run_repository.py:111-163 | the reason fresh run ids are assumed: reusing the id of a sealed run for another authorization erases its seal |
| OosLaws.InterruptReopensASealIff | src/stock_factor/ports/oos_run_repository.py:199-210 | on the repository alone a sealed run reopens by interrupt exactly for the holder of the sealing token |
| OosLaws.RenewReopensASealIff | src/stock_factor/ports/oos_run_repository.py:169-179 | and by renew exactly for that holder within the lease |
| OosLaws.SameOwnerSharesTheToken | src/stock_factor/ports/oos_run_repository.py:128-136 | the same owner inside its lease gets the same run under the same token, so fencing cannot tell two calls of one owner on one authorization apart |
| OosLimits.TwinSealsToo | src/stock_factor/ports/oos_run_repository.py:128-136 | beside a worker that is about to seal, a second call with the same arguments takes over its run under the same token and seals it, and then the first one seals again |
| OosLimits.TwinsSealTwice | src/stock_factor/application/oos_run_service.py:68-92 | from the empty system, for every job that may start at once, a schedule that breaks no other assumption ends with two completed seals of one authorization |
| OosLimits.InvariantNeedsTheReply | src/stock_factor/application/oos_run_service.py:147-170 | a step whose new run id is fresh keeps the protocol invariant if and only if it does not lose the reply of a granted seal |
| OosLimits.LostReplyUndoesTheSeal | src/stock_factor/application/oos_run_service.py:168-170 | if it does, the call's own interrupt takes the run from SEALED back to INTERRUPTED and opens the CONSUMED authorization again, with the artifact still stored |
| OosLimits.UndoneSealStaysUndone | src/stock_factor/adapters/postgres/oos_run_repository.py:200-221 | over the database no later seal of that run is granted |
| OosInvalidation.InvalidationSticksIff | src/stock_factor/ports/oos_run_repository.py:232-241 | an externally invalidated authorization stays INVALIDATED under every continuation if and only if no live worker holds its run with the current token, except one bound to end the run for good |
| OosInvalidation.HolderReopens | src/stock_factor/application/oos_run_service.py:163-170 | the schedule by which such a holder reopens it |
| OosInvalidation.LateInvalidationDoesNotStick | src/stock_factor/application/oos_run_service.py:68-170 | from the empty system, for every job that may start at once: authorize, spawn, start, invalidate leads to an INVALIDATED authorization that a continuation reopens |
| OosInvalidation.AJobStartsAtOnce | src/stock_factor/ports/oos_run_repository.py:111-163 | there is such a job |
| OosRun.CandidateSetHashIdentifiesTheSet | src/stock_factor/domain/oos_run.py:21-29 | two well-formed candidate lists hash alike if and only if one rearranges the other |
| OosRun.CohortHashIdentifiesRows | src/stock_factor/domain/oos_run.py:181-196 | distinct rows always hash, and two row lists hash alike if and only if one rearranges the other |
| OosRun.CohortHashReads | src/stock_factor/domain/oos_run.py:181-196 | the cohort hash depends on run id, version and the identity of the authorization only, and names the run |
| OosRun.InputHashIdentifiesInputs | src/stock_factor/application/oos_run_service.py:177-186 | two candidates have one input hash if and only if they are equal in everything but the excluded keys |
| OosRun.CandidateSetRefusedIff | src/stock_factor/domain/oos_run.py:21-29 | a candidate set is refused if and only if it is empty or has a blank or a repeated id |
| OosRun.CohortHashIdentifies | src/stock_factor/domain/oos_run.py:181-196 | two cohorts hash alike if and only if they have the same rows up to order, run id, version and authorization identity |
| InMemoryOosRunRepository.InMemoryOosRunRepository.SaveAuthorization | src/stock_factor/ports/oos_run_repository.py:85-95 | stores a new authorization once; a different identity under the same id is refused |
| InMemoryOosRunRepository.InMemoryOosRunRepository.GetAuthorization | src/stock_factor/ports/oos_run_repository.py:97-99 | returns what is stored |
| InMemoryOosRunRepository.InMemoryOosRunRepository.InvalidateAuthorization | src/stock_factor/ports/oos_run_repository.py:101-109 | invalidates unless consumed |
| InMemoryOosRunRepository.InMemoryOosRunRepository.StartOrResume | src/stock_factor/ports/oos_run_repository.py:111-163 | the outcome and the whole successor state are those of the protocol function, for every input |
| InMemoryOosRunRepository.InMemoryOosRunRepository.Owned | src/stock_factor/ports/oos_run_repository.py:232-241 | the owner, token, binding and lease checks |
| InMemoryOosRunRepository.InMemoryOosRunRepository.Renew | src/stock_factor/ports/oos_run_repository.py:169-179 | extends the lease of an owned run |
| InMemoryOosRunRepository.InMemoryOosRunRepository.GetCheckpoint | src/stock_factor/ports/oos_run_repository.py:181-183 | returns what is stored |
| InMemoryOosRunRepository.InMemoryOosRunRepository.PutCheckpoint | src/stock_factor/ports/oos_run_repository.py:185-197 | write-once storing with terminal and conflict checks |
| InMemoryOosRunRepository.InMemoryOosRunRepository.Interrupt | src/stock_factor/ports/oos_run_repository.py:199-210 | ends or suspends an owned run and its authorization |
| InMemoryOosRunRepository.InMemoryOosRunRepository.Seal | src/stock_factor/ports/oos_run_repository.py:212-226 | consumes the authorization and stores the artifact |
| PostgresOosRunRepository.PostgresOosRunRepository.SaveAuthorization | src/stock_factor/adapters/postgres/oos_run_repository.py:36-56 | same protocol function as the in-memory method |
| PostgresOosRunRepository.PostgresOosRunRepository.InvalidateAuthorization | src/stock_factor/adapters/postgres/oos_run_repository.py:63-72 | same protocol function |
| PostgresOosRunRepository.PostgresOosRunRepository.NextRun | src/stock_factor/adapters/postgres/oos_run_repository.py:74-132 | the flattened branches choose the same run record or the same error as the nested ones |
| PostgresOosRunRepository.PostgresOosRunRepository.StartOrResume | src/stock_factor/adapters/postgres/oos_run_repository.py:74-132 | the database transition: the protocol function, except that a colliding new run id raises an integrity error |
| PostgresOosRunRepository.PostgresOosRunRepository.Owned | src/stock_factor/adapters/postgres/oos_run_repository.py:236-245 | same checks |
| PostgresOosRunRepository.PostgresOosRunRepository.Renew | src/stock_factor/adapters/postgres/oos_run_repository.py:139-148 | same protocol function |
| PostgresOosRunRepository.PostgresOosRunRepository.PutCheckpoint | src/stock_factor/adapters/postgres/oos_run_repository.py:160-186 | the database transition: the protocol function, except that a terminal run is not refused |
| PostgresOosRunRepository.PostgresOosRunRepository.Interrupt | src/stock_factor/adapters/postgres/oos_run_repository.py:188-198 | same protocol function |
| PostgresOosRunRepository.PostgresOosRunRepository.Seal | src/stock_factor/adapters/postgres/oos_run_repository.py:200-221 | the database transition: the protocol function, except for a missing hash and for a second artifact; the unique index follows |
| OosRunService.OosRunService.EvaluateCohort | src/stock_factor/application/oos_run_service.py:68-170 | in any system over this repository in which the call is about to begin, whoever else is at work, whatever was sealed before and whatever happens to its external calls, one call with its loops and exception routing is a schedule of this process and the clock; the process ends with what the call returns, nobody else changes, its seal is added to those there were, and with a fresh run id and no lost reply of a granted seal the schedule is admissible and keeps the invariant |
| OosRunService.OosRunService.Call | src/stock_factor/application/oos_run_service.py:78-170 | the call for a cohort that is not empty |
| OosRunService.NextCall | src/stock_factor/application/oos_run_service.py:68-84 | a process may begin a call for a free caller, and the invariant carries over |
| OosRunService.OosRunService.EvaluateAll | src/stock_factor/application/oos_run_service.py:95-124 | the candidate loop as steps of that schedule |
| OosRunService.OosRunService.CollectRows | src/stock_factor/application/oos_run_service.py:125-146 | the row loop as steps of that schedule |
| OosRunService.OosRunService.SealRows | src/stock_factor/application/oos_run_service.py:147-162 | the seal as a step of that schedule |
| OosRunService.OosRunService.Recover | src/stock_factor/application/oos_run_service.py:163-170 | the exception clauses as a step of that schedule; an exception of the interrupt replaces the first one |
| StackVM.Machine.Execute | src/stock_factor/engine/vm.py:17-47 | the loop returns the panel left on the stack exactly when the token limit holds, no token is unknown or lacks operands or features, one panel is left and it is not all missing |
| FormulaLaws.SumAndDifference | src/stock_factor/engine/ops.py:137-141 | what the machine leaves for `f g sub`, plus `g`, is `f`; likewise for `add` |
| FormulaLaws.ProductAndQuotient | src/stock_factor/engine/ops.py:137-142 | what it leaves for `f g div`, times `g`, is `f`, and is missing where `g` is below the tolerance; likewise for `mul` |
| FormulaLaws.Comparisons | src/stock_factor/engine/ops.py:143-144 | `gt` and `lt` are 1 exactly on the strict order of two present values, otherwise 0 |
| FormulaLaws.LargerAndSmaller | src/stock_factor/engine/ops.py:145-147 | `max` and `min` bound both features and are attained |
| FormulaLaws.UnaryLaws | src/stock_factor/engine/ops.py:128-136 | the defining equations of `neg`, `abs`, `sign` and `signedpower` |
| FormulaLaws.WhereLaw | src/stock_factor/engine/ops.py:148-149 | `where` takes the side its condition names |
| FormulaLaws.DelayAndDelta | src/stock_factor/engine/ops.py:35-41 | `ts_delay_w` on day t is day t - w, and `ts_delta_w` plus that value is day t |
| FormulaLaws.MeanSumCount | src/stock_factor/engine/ops.py:107-120 | over the days t - w + 1 .. t the mean times the number present is the sum, and `count` is the number of positive values; missing before day w - 1 |
| FormulaLaws.DeviationLaw | src/stock_factor/engine/ops.py:107-109 | `ts_std` is the root of the mean squared distance from the mean |
| FormulaLaws.WindowExtremes | src/stock_factor/engine/ops.py:107-111 | `ts_max` and `ts_min` bound the window and are attained in it |
| FormulaLaws.WindowArguments | src/stock_factor/engine/ops.py:61-67 | `ts_argmax` and `ts_argmin` count back to the first day with the extreme value |
| FormulaLaws.WindowRank | src/stock_factor/engine/ops.py:42-49 | `ts_rank` times the number present is the number of values at most today's |
| FormulaLaws.DecayLaw | src/stock_factor/engine/ops.py:54-60 | `decay_linear` times the sum of the places of the present days is the sum of their values times their places |
| FormulaLaws.PairLaws | src/stock_factor/engine/ops.py:68-87 | `ts_cov` times the squared number of common days is the spread of the sums; `ts_corr` times the root of both variances is the covariance |
| FormulaLaws.CrossRank | src/stock_factor/engine/ops.py:88-100 | `cs_rank` times the number present is the number of symbols at or before this one |
| FormulaLaws.CrossZscore | src/stock_factor/engine/ops.py:122-127 | `cs_zscore` times the deviation of the day is the demeaned value |
| FormulaLaws.DemeanedSumToZero | src/stock_factor/engine/ops.py:122-127 | `cs_demean` sums to zero over the symbols present |
| StackVM.Operate | src/stock_factor/engine/ops.py:25-39 | filling the result array day by day gives every day the operator applied to its own window, and blanks before |
| StackVM.MaxLookback | src/stock_factor/engine/lookback.py:15-37 | the analysis loop computes the abstract stack machine, or fails where it does |
| LookbackPaths.LookbackIsLargestSum | src/stock_factor/engine/lookback.py:15-37 | a program has look-back l if and only if it is the postfix form of a well-formed expression in which the largest sum of reaches from the root to a feature is l - 1 |
| LookbackPaths.RejectedIff | src/stock_factor/engine/lookback.py:15-37 | it is rejected if and only if it is the postfix form of no well-formed expression |
| StackVM.Pops | src/stock_factor/engine/lookback.py:9-12 | popping operands one by one finds the largest of the top operands, or fails if there are too few |
| StackVM.LookToken | src/stock_factor/engine/lookback.py:18-33 | one token on the stack of look-backs |
| Lookback.AcceptedIffRuns | src/stock_factor/engine/lookback.py:15-37 | with all features present the analysis accepts exactly the programs on which the machine never underflows and ends with one panel |
| Lookback.LookbackIsExact | src/stock_factor/engine/lookback.py:15-37 | for look-back l and every day t >= l - 1, day t of the full run equals the last day of a run on days t - l + 1 .. t alone |
| Lookback.ExecAgrees | src/stock_factor/engine/vm.py:20-44 | on any slice of days the stacks agree from each entry's look-back on |
| Lookback.ApplyAgrees | src/stock_factor/engine/ops.py:25-39 | one operator on full and sliced panels agrees from the largest look-back plus its reach on |
| Lookback.ExecIsCausal | src/stock_factor/engine/vm.py:20-44 | for every program, features that agree up to day t leave stacks that agree up to day t |
| Ops.ExtremeIsFirst | src/stock_factor/engine/ops.py:61-65 | the masked argmax and argmin: no present value beats the chosen one and no earlier one ties it; nothing is chosen exactly when all are missing |
| OpsLaws.RankWindowLaw | src/stock_factor/engine/ops.py:42-47 | the window rank lies in (0, 1] and is 1 exactly when no present value exceeds the current one |
| OpsLaws.DecayIsAMean | src/stock_factor/engine/ops.py:54-58 | decay_linear is a weighted mean: it exists whenever a value is present and stays between any bounds of the window |
| OpsLaws.DecayClampIsDead | src/stock_factor/engine/ops.py:54-58 | the clamp of the denominator never acts |
| CrossSection.RankValues | src/stock_factor/engine/ops.py:88-98 | sorting and scattering gives each value one more than the number of values that stand before it |
| CrossSection.RankDay | src/stock_factor/engine/ops.py:88-98 | one day of the cross-sectional rank: every present symbol gets (number ahead + 1) / count, missing ones stay missing |
| CrossSection.OrderPosition | src/stock_factor/engine/ops.py:94-96 | a value's place in the stable order is the number of values before it |
| CrossSection.RanksFollowValues | src/stock_factor/engine/ops.py:88-98 | ranks are strictly ordered like the values, ties by position |
| Correlation.CovarianceIsBounded | src/stock_factor/engine/ops.py:68-85 | on every masked window both variances are non-negative and the squared covariance is at most their product |
| Correlation.CorrelationIsInRange | src/stock_factor/engine/ops.py:68-85 | the clamps are no-ops and every value of ts_corr lies in [-1, 1] |
| Mutation.Mutate | src/stock_factor/application/mining/generate.py:51-63 | replaces the first replaceable token, else negates what a final cs_rank ranks, else gives up |
| Mutation.ReplacedIff | src/stock_factor/application/mining/generate.py:51-63 | `ts_mean` doubles its window from 5 to 10 to 20, `ts_delay` goes from 3 to 5, and no other token is replaced |
| Mutation.MutationKeepsLookback | src/stock_factor/application/mining/generate.py:51-63 | a mutant is well-formed if and only if its parent is, its look-back is 0 to 10 days longer, and valid tokens stay valid |
| Mutation.MutationLength | src/stock_factor/application/mining/generate.py:57-63 | a mutant of an admissible program exceeds the token limit exactly when a 16-token program was lengthened |
| MultipleTesting.BenjaminiHochberg | src/stock_factor/engine/statistical_validation.py:11-28 | refuses exactly the families outside [0, 1]; otherwise every adjusted value is the smallest scaled bound p_j * n / #(p <= p_j) over p_j >= p_i, and rejection compares it with alpha |
| MultipleTesting.Holm | src/stock_factor/engine/multiple_testing.py:31-47 | refuses the same families; otherwise every adjusted value is the largest capped bound over p_j <= p_i |
| MultipleTesting.AdjustmentsExist | src/stock_factor/engine/statistical_validation.py:18-23 | both reference values exist for every hypothesis of every family, so the laws below are about every family |
| MultipleTesting.SuffixMinIsBh | src/stock_factor/engine/statistical_validation.py:18-23 | the reversed running minimum over the sorted values is that smallest bound |
| MultipleTesting.PrefixMaxIsHolm | src/stock_factor/engine/multiple_testing.py:36-41 | the running maximum over the sorted values is that largest bound |
| MultipleTesting.BhIsMonotone | src/stock_factor/engine/statistical_validation.py:11-28 | lowering p-values lowers every adjusted value, so nothing rejected is un-rejected, however much the order changes |
| MultipleTesting.BhIgnoresOrder | src/stock_factor/engine/statistical_validation.py:18-23 | rearranging the family rearranges the adjusted values; equal p-values get equal values |
| MultipleTesting.BhIsStepUp | src/stock_factor/engine/statistical_validation.py:18-23 | the hypothesis at a sorted place is rejected if and only if its rank is at most the largest k with p_(k) * n <= k * alpha |
| MultipleTesting.BhAtMostOne | src/stock_factor/engine/statistical_validation.py:22-23 | adjusted values lie between p and 1, so the cap never acts |
| MultipleTesting.HolmIsStepDown | src/stock_factor/engine/multiple_testing.py:36-41 | for alpha < 1 rejection equals passing every step-down threshold up to this p-value |
| MultipleTesting.AdjustmentsAreOrdered | src/stock_factor/engine/multiple_testing.py:16-57 | p <= Benjamini-Hochberg <= Holm <= Bonferroni <= 1 for every family, so the rejection sets nest |
| Sorting.ArgsortSorts | src/stock_factor/engine/statistical_validation.py:18-19 | the mergesort order is a permutation that sorts and keeps ties in place |
| Windows.BuildPurgedWindows | src/stock_factor/engine/purged_walkforward.py:88-108 | with its min, if and break it computes the same windows as the plain version, on all integers |
| Windows.BuildEvalWindows | src/stock_factor/engine/validation.py:46-56 | the plain version |
| Windows.WindowsTile | src/stock_factor/engine/purged_walkforward.py:88-108 | there are windows exactly when each can hold a day; then there are max(n, 1), from the first day to the last, the embargo apart, with widths that differ by at most one |
| Windows.WindowsConserveDays | src/stock_factor/engine/purged_walkforward.py:88-108 | window widths and gaps add up to the range |
| Windows.ResearchSplit | src/stock_factor/engine/research_split.py:42-65 | an accepted split is ordered, adjacent and ends the horizon before the data |
| Windows.SplitsAgreeIff | src/stock_factor/engine/validation.py:35-43 | the two split builders agree if and only if the second refuses the layout or both period lengths are positive |
| Windows.SplitsDiffer | src/stock_factor/engine/validation.py:35-43 | an input on which they differ: without a final period only the second accepts |
| Fitness.EvaluateFactorRange | src/stock_factor/engine/fitness.py:48-127 | the day loop computes the specification function |
| Fitness.EvaluateRangeFootprint | src/stock_factor/engine/fitness.py:57-88 | the metrics depend only on factor columns from the start to min(end, days - horizon) and on closes before the end |
| Fitness.ChosenAreHighest | src/stock_factor/engine/fitness.py:77-81 | the portfolio has distinct symbols and no symbol left out has a higher factor value |
| Fitness.PeriodsNeverOverlap | src/stock_factor/engine/fitness.py:67-88 | holding periods are at least the horizon apart, so their number is bounded by the range |
| FitnessLaws.EvaluationLaw | src/stock_factor/engine/fitness.py:48-127 | a complete account of every evaluation: exactly the days with ten usable symbols and no constant side count, with their two correlations; a holding period starts on the first counted day and on each first one that is a horizon later; it holds the highest symbols and earns their gains less 0.001 for each newcomer; and every metric, and whether it passes, follows from these |
| FitnessLaws.CostLaw | src/stock_factor/engine/fitness.py:80-87 | no period earns more than the mean gain of what it holds; it falls short by at most 0.001, by nothing exactly when everything was held before, and by more the more newcomers it has |
| FitnessLaws.ForwardLaw | src/stock_factor/engine/fitness.py:62-67 | a forward gain takes the close to the one a horizon later, and is there exactly when that day is before the end of range and panel and both closes are there |
| FitnessLaws.RankLaw | src/stock_factor/engine/fitness.py:22-31 | a rank times the number of values is the number of values that do not stand behind it |
| FitnessLaws.OrderIsAllThatMatters | src/stock_factor/engine/fitness.py:73-113 | a change of the factor that keeps the order of the symbols with a gain, and the days that count, changes no metric but the mean correlation of the values |
| FitnessLaws.ScaleMakesNoDifference | src/stock_factor/engine/fitness.py:62-127 | multiplying the closes of each symbol by a positive number of its own changes no metric |
| FeaturePanel.DistributeSignals | src/stock_factor/application/panel.py:73-88 | the nested loops put into every cell exactly the signals visible on its day that mention its symbol, in order |
| FeaturePanel.DistributeOne | src/stock_factor/application/panel.py:76-88 | one signal over all days and symbols |
| FeaturePanel.ShownFirstOn | src/stock_factor/application/panel.py:79-86 | a signal is first shown on the first trading day from its own date, if available by 09:25, or otherwise from the next date on, unless that day is past the look-back |
| FeaturePanel.ShownTheSameDayIff | src/stock_factor/application/panel.py:82-86 | it is shown on its own date if and only if that is a trading day and the signal is available by 09:25 |
| FeaturePanel.PanelAt | src/stock_factor/application/panel.py:152-163 | which column the built panel holds for every feature and day |
| FeaturePanel.DerivedLaw | src/stock_factor/application/panel.py:159-161 | `vwap` times the volume is the amount, and `1 + ret` takes the close of the day before to today's; each is there exactly when that is defined |
| FeaturePanel.QuietCellIsZero | src/stock_factor/application/panel.py:59-98 | a content cell that no visible signal mentions is zero, never missing |
| FeaturePanel.FeatureOfThePast | src/stock_factor/application/panel.py:59-163 | features of the days up to t depend only on bars of those days and on signals available by the 09:25 cutoff of day t |
| Discovery.RankIcSeries | src/stock_factor/application/statistical_experiment.py:21-41 | the day loop, ranking by sorting twice, computes the rank-IC specification |
| Discovery.DoubleArgsort | src/stock_factor/application/statistical_experiment.py:36-37 | sorting twice gives every value its ordinal place |
| DiscoveryLaws.RankIcsLaw | src/stock_factor/application/statistical_experiment.py:21-41 | the series has one correlation of ordinal places for each day with ten usable symbols and two lists that vary, in order |
| DiscoveryLaws.RankIcsFollowOrder | src/stock_factor/application/statistical_experiment.py:21-41 | it reads the order of the factor only |
| Discovery.CollectFootprint | src/stock_factor/application/mining/discovery.py:41-77 | preliminary metrics, walk-forward metrics, recent metrics, the truncated panels and the rank-IC series look at no day from the end of discovery on |
| Discovery.WindowMetricsFootprint | src/stock_factor/engine/purged_walkforward.py:18-39 | so do the walk-forward windows |
| DiscoveryLaws.CollectLaw | src/stock_factor/application/mining/discovery.py:40-78 | which days the evidence is about: the recent panels are the last four horizons of discovery and at least twenty days, the preliminary metrics end with discovery, and every walk-forward window lies in it |
| Discovery.DiscoverySeesNoHoldout | src/stock_factor/application/mining/discovery.py:41-77 | changing bars from the end of discovery on and signals after the cutoff of the last discovery day in any way leaves the evidence computed from a candidate's panel unchanged |
| Discovery.SameEvaluationIff | src/stock_factor/application/mining/discovery.py:36-47 | two histories equal through the last discovery day: where both are evaluated the evidence is equal; a value on a discovery day makes both evaluated; otherwise each outcome is decided by later days alone; so the evaluations agree if and only if a discovery day has a value, or both or neither have one later |
| Discovery.HoldoutDecides | src/stock_factor/engine/vm.py:44-46 | an instance: with no bars before the holdout, the formula `close` is evaluated if and only if the last day has a price |
| RawBars.BarLookbackIsExact | src/stock_factor/application/panel.py:152-163 | with `ret` counted as two days, day t of the full run over raw bars is the last day of a run given only the bars of the l days up to t, for every accepted program |
| RawBars.BarLookbackBounds | src/stock_factor/engine/lookback.py:16-37 | counting `ret` twice accepts the same programs and adds at most one day, and none without `ret` |
| RawBars.BarLookbackSuffices | src/stock_factor/application/panel.py:160-161 | so day t depends on no other bars, also when fewer days exist |
| RawBars.LookbackSuffices | src/stock_factor/engine/lookback.py:16-37 | the look-back of the code is enough over raw bars for every program without `ret`, and for every program on which both analyses agree |
| RawBars.ReturnLooksBackTwice | src/stock_factor/application/panel.py:160-161 | for the program `ret` it is not: two histories that agree on that one day differ in the feature |
| RawBars.SelfComparisonIsConstant | src/stock_factor/engine/lookback.py:16-37 | that the analyses differ does not make the look-back too short: `ret ret gt` is zero everywhere |
| Search.SelectCanonical | src/stock_factor/application/mining/screen.py:12-27 | the loop returns the valid formulas by first appearance, cut at the budget, but never below one |
| Search.BudgetExceededIff | src/stock_factor/application/mining/screen.py:12-27 | the budget is exceeded if and only if it is zero and a valid candidate exists |
| Search.EvaluateDiscovery | src/stock_factor/application/mining/discovery.py:32-114 | the nested loops compute the recursive specification of the rounds |
| Search.SearchIsBounded | src/stock_factor/application/mining/discovery.py:32-114 | from distinct candidates: at most round_limit rounds, at most max(budget, number of candidates) evaluations, no formula twice, for every proposer |
| SearchLaws.SearchIsExplained | src/stock_factor/application/mining/discovery.py:31-114 | fewer rounds than the limit take place only if the budget is reached, the last round evaluated nothing or nothing new was proposed; what is evaluated is what the rounds evaluated, in order; there is no result exactly when a candidate of the last round cannot be analysed |
| SearchLaws.ProposedIs | src/stock_factor/application/mining/discovery.py:103-113 | the next round tries exactly the formulas never tried before among the first valid proposals that round size and budget let through |
| Deduplicate.CorrelationDeduplicate | src/stock_factor/application/mining/screen.py:30-52 | the loop computes the recursive definition: kept is what resembles nothing kept before it, and each rejected item names the first kept one it resembles; nothing is lost or repeated, no kept item resembles an earlier one, each rejected one resembles a kept one at least as fit, and the fittest is kept first |
| TieRanks.Rank | src/stock_factor/technical_transformer/evaluation/metrics.py:21-34 | every value gets (number smaller) + (number equal - 1) / 2 |
| TieRanks.RankFollowsValue | src/stock_factor/technical_transformer/evaluation/metrics.py:21-34 | ranks are ordered exactly like the values; only equal values tie |
| TieRanks.RankIgnoresOrder | src/stock_factor/technical_transformer/evaluation/metrics.py:21-34 | rearranging the values rearranges the ranks |
| TieRanks.RanksSum | src/stock_factor/technical_transformer/evaluation/metrics.py:21-34 | the ranks of n values sum to n (n - 1) / 2 |
| Sampler.Ranges | src/stock_factor/technical_transformer/data/dataset.py:49-63 | accepted if and only if the three ranges are ordered, not inverted and the gap apart |
| Sampler.SamplesForRange | src/stock_factor/technical_transformer/data/dataset.py:270-311 | the walk over the positions of one range computes the greedy choice |
| Sampler.EligibleSamples | src/stock_factor/technical_transformer/data/dataset.py:227-267 | with one map of last positions for all splits it equals the per-range results joined |
| Sampler.TakePosition | src/stock_factor/technical_transformer/data/dataset.py:287-300 | the chain of continue tests is the eligibility condition |
| Sampler.WindowInsideRange | src/stock_factor/technical_transformer/data/dataset.py:285-291 | on sorted dates every day of a sample's window lies in the range of its split |
| Sampler.ChosenAreSpaced | src/stock_factor/technical_transformer/data/dataset.py:299-311 | consecutive samples are at least the stride apart |
| Sampler.GreedyIsLargest | src/stock_factor/technical_transformer/data/dataset.py:286-311 | no other choice of eligible ends that keeps the stride has more samples |
| Sampler.TrainAndDoubleOosAreDisjoint | src/stock_factor/technical_transformer/data/dataset.py:497-519 | a train and a double_oos sample differ in symbol and share no date |
| Sampler.AssertSplitDisjoint | src/stock_factor/technical_transformer/data/dataset.py:158-167 | refuses if and only if one symbol and date carry two split names, `test` and `time_test` being one |
| Sampler.DatasetIsDisjoint | src/stock_factor/technical_transformer/data/dataset.py:480-531 | for distinct symbols and an accepted split configuration no symbol and date of the assembled dataset carry two splits |
| Sampler.BuildRecords | src/stock_factor/technical_transformer/data/dataset.py:480-531 | the assembling loop returns that dataset if and only if the split configuration is accepted; the final check never refuses it |
| Sampler.SymbolRecords | src/stock_factor/technical_transformer/data/dataset.py:497-519 | a training symbol's samples over all ranges with `test` renamed, and a held-out symbol's over the two later ranges, are the samples of its splits |
| SamplerLaws.SamplesLaw | src/stock_factor/technical_transformer/data/dataset.py:270-311 | the samples of a range: each says what its window says, every day of the window lies in the range with the listing and the quality, they keep the stride, and every day that fits is the end of one or too close behind one |
| SamplerLaws.DatasetIff | src/stock_factor/technical_transformer/data/dataset.py:480-531 | a record is in the dataset if and only if it is a sample of a training symbol in train, valid or time_test, or of a held-out one in instrument_test or double_oos, in the dates of that split |
| SamplerLaws.DatasetHasNoRepetition | src/stock_factor/technical_transformer/data/dataset.py:480-531 | no record is in it twice |
| SymbolSplit.Split | src/stock_factor/technical_transformer/data/dataset.py:101-151 | the two sides partition the symbols, the hold-out is what the law below says, training is never empty, and the hold-out is empty if and only if nothing was asked for or there is one symbol; the last guard never acts |
| SymbolSplit.DrawnIsFewer | src/stock_factor/technical_transformer/data/dataset.py:131-142 | every stratum keeps a symbol |
| SymbolSplit.HoldOutLaw | src/stock_factor/technical_transformer/data/dataset.py:131-147 | of each stratum exactly the first symbols are held out, as many as it gives up; if none gives up any, the symbol with the smallest hash |
| SymbolSplit.DesiredLaw | src/stock_factor/technical_transformer/data/dataset.py:134-138 | a stratum gives up its share rounded to the nearest number, at least one from five symbols on, and never all |
| Tradability.PortfolioInPlace | src/stock_factor/application/tradability_assessment.py:237-241 | demeaning and scaling in place gives the normalised positions |
| Tradability.NormIsAtMostOne | src/stock_factor/application/tradability_assessment.py:239-241 | normalised positions have norm one or are zero |
| Tradability.Turnover | src/stock_factor/application/tradability_assessment.py:237-244 | computes the mean half distance of consecutive portfolios, which lies in [0, 1] |
| TradabilityLaws.PortfolioLaw | src/stock_factor/application/tradability_assessment.py:238-241 | a portfolio adds up to zero and differs as the positions do times one positive factor; its absolute weights add up to one, or it holds nothing when all positions are equal |
| TradabilityLaws.StepLaw | src/stock_factor/application/tradability_assessment.py:244 | half the distance of two portfolios is what is bought, and what is sold |
| TradabilityLaws.TurnoverLaw | src/stock_factor/application/tradability_assessment.py:242-244 | the turnover times the number of steps is what is bought over all of them |
| TradabilityLaws.ConstantTurnover | src/stock_factor/application/tradability_assessment.py:242-244 | if every step buys the same, that is the turnover, for every number of days from two on |
| TradabilityLaws.SwappedTurnover | src/stock_factor/application/tradability_assessment.py:242-244 | portfolios that swap sides every day have turnover one, and unchanged ones zero |
| TradabilityLaws.JoinedTurnover | src/stock_factor/application/tradability_assessment.py:242-244 | two histories joined at a day they share have the average, weighted by their steps |
| TradabilityLaws.MovedTurnover | src/stock_factor/application/tradability_assessment.py:238-244 | positive factors on the valid values of any days, and shifts on days with all symbols valid or none, change nothing |
| TradabilityLaws.ShiftMakesNoDifferenceIff | src/stock_factor/application/tradability_assessment.py:238-239 | a shift of the valid values of a day changes nothing for every factor if and only if all its symbols are valid, or none |
| Tradability.TradedWithinAvailable | src/stock_factor/application/tradability_assessment.py:252-256 | only valid symbols carry weight, so if they have no negative amount what is traded is at most what is available |
| Tradability.Participation | src/stock_factor/application/tradability_assessment.py:247-259 | computes the mean rate times the turnover, which lies in [0, 1] if every day is sound: nothing is available, or no valid symbol has a negative amount |
| TradabilityLaws.RateLaw | src/stock_factor/application/tradability_assessment.py:251-256 | the rate of a day, times what is available and times the norm, is the weighted sum of the amounts of its valid symbols; zero when nothing is available or no value differs from zero |
| TradabilityLaws.ParticipationLaw | src/stock_factor/application/tradability_assessment.py:257-259 | the participation times the number of days is the turnover times the sum of the rates |
| TradabilityLaws.ConstantParticipation | src/stock_factor/application/tradability_assessment.py:257-259 | if every day has one rate, the participation is that rate times the turnover |
| TradabilityLaws.JoinedParticipation | src/stock_factor/application/tradability_assessment.py:257-259 | two histories joined have the average, weighted by their days |
| Tradability.Assess | src/stock_factor/domain/tradability_artifact.py:202-207 | then the assessment passes the range checks of its own artifact |
| Tradability.AcceptedForEveryFactorIff | src/stock_factor/application/tradability_assessment.py:247-259 | the exact condition on amounts: the assessment of every factor passes if and only if every day is sound |
| Tradability.NegativeAmountIsRefused | src/stock_factor/domain/tradability_artifact.py:202-207 | an input that is refused: amounts -1 and 3, and a factor that looks at the first |
| Tradability.AcceptedWithoutAmounts | src/stock_factor/application/tradability_assessment.py:248-249 | without amounts every factor passes |
| ModelRegistry.ModelRegistry.Get | src/stock_factor/technical_transformer/registry/registry.py:269-274 | finds the first record by model id or artifact id |
| ModelRegistry.ModelRegistry.RegisterArtifact | src/stock_factor/technical_transformer/registry/registry.py:170-189 | does to the fields what the registry function does to their value |
| ModelRegistry.ModelRegistry.ReplaceRecord | src/stock_factor/technical_transformer/registry/registry.py:303-310 | appends snapshot, history and event and swaps the record, unless the record id exists |
| ModelRegistry.ModelRegistry.Evaluate | src/stock_factor/technical_transformer/registry/registry.py:312-328 | CANDIDATE to EVALUATED with the seal of the report, which the laws of the registry trace through every run |
| ModelRegistry.ModelRegistry.SealModel | src/stock_factor/technical_transformer/registry/registry.py:330-337 | EVALUATED to SEALED, only with a passed seal |
| ModelRegistry.ModelRegistry.Promote | src/stock_factor/technical_transformer/registry/registry.py:339-379 | SEALED to PROMOTED, only if all checks pass |
| ModelRegistry.ModelRegistry.Retire | src/stock_factor/technical_transformer/registry/registry.py:381-388 | PROMOTED to RETIRED, clearing the active pointer |
| ModelRegistry.ModelRegistry.Activate | src/stock_factor/technical_transformer/registry/registry.py:390-400 | points to a PROMOTED record |
| Registry.StepOk | src/stock_factor/technical_transformer/registry/registry.py:170-400 | every call that registers candidates only keeps the invariant (histories are paths from CANDIDATE to the current record, SEALED or later means a passed seal, the active pointer names a PROMOTED record, events are numbered 1..n, the snapshots are exactly the entries of the histories), removes or alters nothing, and never meets a record id collision |
| Registry.NoCollision | src/stock_factor/technical_transformer/registry/registry.py:303-305 | the record id of a next status has not existed before |
| Registry.Run | src/stock_factor/technical_transformer/registry/registry.py:170-400 | so the invariant holds after every run of calls |
| Registry.RunsAppend | src/stock_factor/technical_transformer/registry/registry.py:294-310 | a longer run keeps every snapshot, history and event of a shorter one |
| Registry.ActiveModelIsSealed | src/stock_factor/technical_transformer/registry/registry.py:402-411 | an active model is PROMOTED with a passed seal |
| RegistryLaws.EveryRecordIsEarned | src/stock_factor/technical_transformer/registry/registry.py:312-379 | over every run a record beyond CANDIDATE was found by an evaluation whose report matches in hash and identity, and its seal says what that report says; from PROMOTED on a later promotion with passing checks found it |
| RegistryLaws.SealedHasPassingReport | src/stock_factor/technical_transformer/registry/registry.py:324-337 | from SEALED on that report passed |
| RegistryLaws.ActiveModelIsEarned | src/stock_factor/technical_transformer/registry/registry.py:312-411 | an active model has an evaluation with a passing report, a later promotion with passing checks and a later activation |
| RegistryLaws.CandidateBecomesActive | src/stock_factor/technical_transformer/registry/registry.py:312-400 | conversely a candidate with a matching, passing report is active after evaluate, seal, promote and activate |
| RegistryLaws.FailedReportEnds | src/stock_factor/technical_transformer/registry/registry.py:324-337 | a failed report leaves an EVALUATED record that no continuation seals |
| RegistryLaws.ActiveUntil | src/stock_factor/technical_transformer/registry/registry.py:381-400 | a model stays active until it is retired or another is activated |
| RegistryLaws.RegisterSucceedsIff | src/stock_factor/technical_transformer/registry/registry.py:170-189 | registering succeeds if and only if the checkpoint agrees and the artifact is there already or its model is new; then the registry holds this artifact |
| RegistryLaws.RefusedChangesNothing | src/stock_factor/technical_transformer/registry/registry.py:170-400 | a call that fails changes nothing |
| RegistryLaws.LogTellsTheHistories | src/stock_factor/technical_transformer/registry/registry.py:294-310 | over every run the event log tells, model by model, exactly the statuses of the histories |
| Registry.RegisterKeepsOkIff | src/stock_factor/technical_transformer/registry/registry.py:170-189 | the discipline is exact: registering an artifact under new ids keeps the invariant if and only if it is a CANDIDATE |
| Registry.UndisciplinedActivation | src/stock_factor/technical_transformer/registry/registry.py:170-189 | the reason for the discipline: an artifact registered as PROMOTED can be activated without a seal |

## Left out

- Encodings: SHA-256, JSON and timestamps of records (`started_at`, `authorized_at`, `invalidated_at`) are not modelled, and a missing candidate id is the empty string.
- Time zones: naive datetimes that raise are not modelled.
- Transactions: SQL sessions, row locks and isolation are reduced to one atomic step per repository call.
- Lease renewal by the service: `renew` is modelled on both repositories, but the service never calls it, so it is no step of the system.
- Fitness.EvaluateFactorRange: the standard deviation and the correlation are parameters, numpy's default unstable sort is modelled as the stable one, rounding of the reported figures is not modelled, and a horizon of zero is excluded.
- Discovery.DiscoverySeesNoHoldout: the diagnostics, exposures and capacity of a candidate, and the similarity test of the deduplication, are computed from whole panels, holdout included, and are no part of the evidence; neither is a candidate for which no split exists.
- Discovery.CollectFootprint: the decay and turnover figures of recent alpha appear as the truncated panels they are computed from, and the aggregates of the walk-forward as the metrics of its windows.
- MultipleTesting.BenjaminiHochberg: NaN p-values and the rounding to ten digits of the reported values are not modelled.
- MultipleTesting.Holm: the same two things.
- FeaturePanel.DistributeSignals: symbol normalisation is taken as done, and the arithmetic within one content cell is a parameter.
- StackVM.Machine.Execute: panels of different shapes, for which numpy raises (the machine then gives nothing) or broadcasts, and infinite values are not modelled; tokens are given after lexing, so leading zeros in a window and substrings such as `lead` inside other text are not.
- Deduplicate.CorrelationDeduplicate: the correlation of two panels is a parameter, and a missing fitness is not modelled.
- Search.EvaluateDiscovery: names, hypotheses, progress reports and feedback figures are not modelled, and a formula stands for its hash.
- Sampler.SamplesForRange: a non-positive step length is excluded.
- Sampler.EligibleSamples: likewise, and so is a configuration without a split.
- Sampler.BuildRecords: the series files, the feature processor, which refuses a dataset without training rows, and the manifest are not modelled; the symbols come in with their roles.
- SymbolSplit.Split: the strata come in as groups already sorted by hash.
- Tradability.AcceptedForEveryFactorIff: the figures are not rounded to twelve digits, so a negative participation that the code would round to zero counts as refused.
- Tradability.Assess: the mask and the hit rates come in as given, capacity, gates, cost and return figures are not modelled; infinite amounts are excluded.
- ModelRegistry.ModelRegistry.Promote: the checkpoint, lock, schema, manifest and hardware checks are one condition.
- ModelRegistry.ModelRegistry.Evaluate: the contents of a reliability report are reduced to whether it matches, passes, and its mode and reason.
- Registry namespaces: model ids and artifact ids cannot coincide in the model, which the code does not check.
- Zero closing prices: the infinite returns they give are modelled as missing.
- Backtest overfitting, deflated Sharpe ratio, bootstrap draws, neutralization and other transcendental or random statistics.
- Torch models, training, feature and label formulas, HTTP routes, the command line, providers and configuration loading.
- Gates, lifecycle tables and readiness probes: each outcome follows from single branches.
