/**
 * Calls of `evaluate_cohort` that race over one repository.
 *
 * A worker is one call in progress, known by the name of its process, and makes one atomic repository
 * call per step. A schedule fixes everything the environment decides: who moves next, clock ticks,
 * crashes, faults before or after the effect of a call, and external authorization or invalidation. The
 * caller-side assumptions of the protocol are collected in `Admissible`.
 */
module OosSystem {
  import opened Wrappers
  import opened OosRun
  import opened OosProtocol

  /** The arguments of `evaluate_cohort`. */
  datatype Job = Job(owner: string, authId: string, candidates: seq<Candidate>, evaluator: Candidate -> Payload,
                     runId: Option<string>, lease: int, version: string)

  /** All that fencing can tell apart: an owner id at work on an authorization. */
  datatype Caller = Caller(owner: string, authId: string)

  function CallerOf(job: Job): Caller {
    Caller(job.owner, job.authId)
  }

  /**
   * What an external call of the step raises: nothing, one of the exceptions that end the run for good, a
   * lease error, or any other exception before it has any effect; or it takes effect and its reply is lost.
   */
  datatype Fault = NoFault | Permanent | LeaseFault | Transient | LostReply

  /** The exception a fault shows to a caller that does not catch it. */
  function FaultError(fault: Fault): Error {
    match fault
    case LeaseFault => LeaseError
    case Permanent => IdentityError
    case _ => RuntimeError
  }

  /** Where a worker that holds a run is: the next repository call it makes. */
  datatype Stage =
    | Check                              // identity checks and preflight, no repository call
    | Look(next: nat)                    // get_checkpoint of candidate `next`, or the refresh after the last one
    | Evaluate(next: nat)                // evaluator and put_checkpoint of candidate `next`
    | Collect(next: nat, rows: seq<Row>) // get_checkpoint for the artifact row, or seal after the last one

  datatype Worker =
    | Waiting(job: Job)
    | Starting(job: Job, auth: Authorization)
    | Active(job: Job, auth: Authorization, run: EvaluationRun, stage: Stage, results: seq<Payload>)
    | Failing(job: Job, run: EvaluationRun, terminal: bool)
    | Finished(job: Job, outcome: Result<Seal, Error>)

  /** A completed `evaluate_cohort` call: what it stored and what it returned. */
  datatype Seal = Seal(job: Job, run: EvaluationRun, identity: Digest, hash: Digest, rows: seq<Row>,
                       results: seq<Payload>)

  datatype System = System(repo: Repo, clock: int, workers: map<string, Worker>, seals: seq<Seal>)

  datatype Action =
    | Tick(seconds: nat)
    | Authorize(request: Request)
    | Invalidate(authId: string)
    | Spawn(process: string, job: Job)
    | Crash(process: string)
    | Advance(process: string, fault: Fault, newId: string)

  /** The effect of one worker step: successor repository, successor worker, and the seal it completed, if any. */
  datatype Effect = Effect(repo: Repo, worker: Worker, seal: Option<Seal>)

  // ------------------------------------------------------------------ the worker's program

  /** The three optional identity fields of every candidate agree with the authorization. */
  predicate FieldsMatch(candidates: seq<Candidate>, auth: Authorization) {
    forall i :: 0 <= i < |candidates| ==> CandidateMatches(candidates[i], auth)
  }

  predicate CandidateMatches(c: Candidate, auth: Authorization) {
    && (c.datasetRef.Some? ==> c.datasetRef.value == auth.datasetRefHash)
    && (c.marketSnapshot.Some? ==> c.marketSnapshot.value == auth.marketSnapshotId)
    && (c.contentRef.Some? ==> c.contentRef.value == auth.contentRefHash)
  }

  /** The identity checks that precede the preflight. */
  predicate IdentityOk(job: Job, auth: Authorization) {
    && CanonicalCandidateSetHash(Ids(job.candidates)) == Success(auth.candidateSetHash)
    && FieldsMatch(job.candidates, auth)
  }

  /** The `except` clauses of `evaluate_cohort` for an exception raised outside the repository's own checks. */
  function Route(repo: Repo, w: Worker, fault: Fault): Effect
    requires w.Active? && !fault.NoFault?
  {
    match fault
    case LeaseFault => Effect(repo, Finished(w.job, Failure(LeaseError)), None)
    case Permanent => Effect(repo, Failing(w.job, w.run, true), None)
    case _ => Effect(repo, Failing(w.job, w.run, false), None)
  }

  /** The `except` clauses of `evaluate_cohort` for an error of a repository call. */
  function RouteError(repo: Repo, w: Worker, error: Error): Effect
    requires w.Active?
  {
    match error
    case LeaseError => Effect(repo, Finished(w.job, Failure(LeaseError)), None)
    case CheckpointConflict => Effect(repo, Failing(w.job, w.run, true), None)
    case IdentityError => Effect(repo, Failing(w.job, w.run, true), None)
    case _ => Effect(repo, Failing(w.job, w.run, false), None)
  }

  function StepWaiting(repo: Repo, w: Worker): Effect
    requires w.Waiting?
  {
    if w.job.authId in repo.auths && repo.auths[w.job.authId].Available() then
      Effect(repo, Starting(w.job, repo.auths[w.job.authId]), None)
    else Effect(repo, Finished(w.job, Failure(RuntimeError)), None)
  }

  function StepStarting(repo: Repo, w: Worker, now: int, newId: string): Effect
    requires w.Starting?
  {
    AfterStart(w, StartOrResume(repo, w.job.authId, w.job.runId, w.job.owner, w.job.lease, w.job.version, now, newId))
  }

  /** What the worker makes of the outcome of `start_or_resume`. */
  function AfterStart(w: Worker, out: Outcome<EvaluationRun>): Effect
    requires w.Starting?
  {
    if out.result.Failure? then Effect(out.repo, Finished(w.job, Failure(out.result.error)), None)
    else if out.result.value.version != w.job.version then Effect(out.repo, Finished(w.job, Failure(ValueError)), None)
    else Effect(out.repo, Active(w.job, w.auth, out.result.value, Check, []), None)
  }

  function StepCheck(repo: Repo, w: Worker, fault: Fault): Effect
    requires w.Active? && w.stage.Check?
  {
    if !IdentityOk(w.job, w.auth) then Effect(repo, Failing(w.job, w.run, true), None)
    else if !fault.NoFault? then Route(repo, w, fault)
    else Effect(repo, w.(stage := Look(0)), None)
  }

  function StepLook(repo: Repo, w: Worker, fault: Fault): Effect
    requires w.Active? && w.stage.Look?
  {
    var i := w.stage.next;
    if !fault.NoFault? then Route(repo, w, fault)
    else if i >= |w.job.candidates| then
      var auth := if w.job.authId in repo.auths then repo.auths[w.job.authId] else w.auth;
      Effect(repo, w.(auth := auth, stage := Collect(0, [])), None)
    else
      var key := (w.run.runId, w.job.candidates[i].id);
      if key !in repo.checkpoints then Effect(repo, w.(stage := Evaluate(i)), None)
      else
        var cp := repo.checkpoints[key];
        if cp.inputHash != InputHash(w.job.candidates[i]) then Effect(repo, Failing(w.job, w.run, true), None)
        else if cp.status.Completed? then
          var result := if cp.result.Some? then cp.result.value else "{}";
          Effect(repo, w.(stage := Look(i + 1), results := w.results + [result]), None)
        else if cp.status.FailedForever? then Effect(repo, Failing(w.job, w.run, true), None)
        else Effect(repo, w.(stage := Evaluate(i)), None)
  }

  /** The checkpoint that candidate `next` is about to store. */
  function NextCheckpoint(w: Worker): Checkpoint
    requires w.Active? && w.stage.Evaluate? && w.stage.next < |w.job.candidates|
  {
    var c := w.job.candidates[w.stage.next];
    CompletedCheckpoint(w.run.runId, c.id, InputHash(c), w.job.evaluator(c))
  }

  /** A lease error of the evaluator is wrapped like any other retryable failure. */
  function StepEvaluate(repo: Repo, w: Worker, now: int, fault: Fault): Effect
    requires w.Active? && w.stage.Evaluate? && w.stage.next < |w.job.candidates|
  {
    if fault.Permanent? then Effect(repo, Failing(w.job, w.run, true), None)
    else if !fault.NoFault? then Effect(repo, Failing(w.job, w.run, false), None)
    else AfterPut(w, PutCheckpoint(repo, NextCheckpoint(w), w.job.owner, w.run.token, now))
  }

  /** What the worker makes of the outcome of `put_checkpoint`. */
  function AfterPut(w: Worker, out: Outcome<Checkpoint>): Effect
    requires w.Active? && w.stage.Evaluate? && w.stage.next < |w.job.candidates|
  {
    if out.result.Failure? then RouteError(out.repo, w, out.result.error)
    else
      var result := w.job.evaluator(w.job.candidates[w.stage.next]);
      Effect(out.repo, w.(stage := Look(w.stage.next + 1), results := w.results + [result]), None)
  }

  function RowOf(cp: Checkpoint): Row {
    Row(cp.candidateId, cp.inputHash, cp.resultHash, cp.result)
  }

  function ArtifactOf(authId: string, auth: Authorization, run: EvaluationRun, rows: seq<Row>): Artifact {
    Artifact(authId, auth.datasetRefHash, auth.marketSnapshotId, auth.contentRefHash, run.version, rows)
  }

  function StepCollect(repo: Repo, w: Worker, now: int, fault: Fault): Effect
    requires w.Active? && w.stage.Collect?
  {
    var i, rows := w.stage.next, w.stage.rows;
    if !fault.NoFault? then Route(repo, w, fault)
    else if i < |w.job.candidates| then
      var key := (w.run.runId, w.job.candidates[i].id);
      if key !in repo.checkpoints || !repo.checkpoints[key].status.Completed? then
        Effect(repo, Failing(w.job, w.run, true), None)
      else Effect(repo, w.(stage := Collect(i + 1, rows + [RowOf(repo.checkpoints[key])])), None)
    else
      var hash := CanonicalCohortHash(rows, w.auth, w.run);
      if hash.Failure? then Effect(repo, Failing(w.job, w.run, false), None)
      else
        AfterSeal(w, hash.value, OosProtocol.Seal(repo, w.run.runId, w.job.owner, w.run.token, Some(hash.value),
                                                  ArtifactOf(w.job.authId, w.auth, w.run, rows), now))
  }

  /** What the worker makes of the outcome of `seal`. */
  function AfterSeal(w: Worker, hash: Digest, out: Outcome<EvaluationRun>): Effect
    requires w.Active? && w.stage.Collect?
  {
    if out.result.Failure? then RouteError(out.repo, w, out.result.error)
    else
      var seal := Seal(w.job, w.run, w.auth.IdentityHash(), hash, w.stage.rows, w.results);
      Effect(out.repo, Finished(w.job, Success(seal)), Some(seal))
  }

  /** The interrupt of the `except` clauses; if it raises itself, its exception replaces the first one. */
  function StepFailing(repo: Repo, w: Worker, now: int, fault: Fault): Effect
    requires w.Failing?
  {
    if !fault.NoFault? then Effect(repo, Finished(w.job, Failure(FaultError(fault))), None)
    else
      var out := Interrupt(repo, w.run.runId, w.job.owner, w.run.token, now, w.terminal);
      var error := if out.result.Failure? then out.result.error else if w.terminal then IdentityError else RuntimeError;
      Effect(out.repo, Finished(w.job, Failure(error)), None)
  }

  /** One step whose repository call, if it makes one, raises before its effect or answers. */
  function StepHeard(repo: Repo, w: Worker, now: int, fault: Fault, newId: string): Effect {
    match w
    case Waiting(job) =>
      if !fault.NoFault? then Effect(repo, Finished(job, Failure(FaultError(fault))), None) else StepWaiting(repo, w)
    case Starting(job, _) =>
      if !fault.NoFault? then Effect(repo, Finished(job, Failure(FaultError(fault))), None)
      else StepStarting(repo, w, now, newId)
    case Active(_, _, _, Check, _) => StepCheck(repo, w, fault)
    case Active(_, _, _, Look(_), _) => StepLook(repo, w, fault)
    case Active(_, _, _, Evaluate(i), _) =>
      if i < |w.job.candidates| then StepEvaluate(repo, w, now, fault) else Effect(repo, w, None)
    case Active(_, _, _, Collect(_, _), _) => StepCollect(repo, w, now, fault)
    case Failing(_, _, _) => StepFailing(repo, w, now, fault)
    case Finished(_, _) => Effect(repo, w, None)
  }

  /** The worker meets an exception instead of the reply. */
  function Unheard(w: Worker): Worker {
    match w
    case Active(job, _, run, _, _) => Failing(job, run, false)
    case Finished(_, _) => w
    case _ => Finished(w.job, Failure(RuntimeError))
  }

  function StepWorker(repo: Repo, w: Worker, now: int, fault: Fault, newId: string): Effect {
    if fault.LostReply? && !(w.Active? && w.stage.Check?) then
      Effect(StepHeard(repo, w, now, NoFault, newId).repo, Unheard(w), None)
    else StepHeard(repo, w, now, fault, newId)
  }

  function Step(s: System, a: Action): System {
    match a
    case Tick(seconds) => s.(clock := s.clock + seconds)
    case Authorize(request) =>
      var auth := NewAuthorization(request);
      if auth.Failure? then s else s.(repo := SaveAuthorization(s.repo, auth.value).repo)
    case Invalidate(authId) => s.(repo := InvalidateAuthorization(s.repo, authId).repo)
    case Spawn(process, job) => if job.candidates == [] then s else s.(workers := s.workers[process := Waiting(job)])
    case Crash(process) => s.(workers := s.workers - {process})
    case Advance(process, fault, newId) =>
      if process !in s.workers then s
      else AfterEffect(s, process, StepWorker(s.repo, s.workers[process], s.clock, fault, newId))
  }

  function AfterEffect(s: System, process: string, e: Effect): System {
    System(e.repo, s.clock, s.workers[process := e.worker], if e.seal.Some? then s.seals + [e.seal.value] else s.seals)
  }

  function Exec(s: System, schedule: seq<Action>): System
    decreases |schedule|
  {
    if schedule == [] then s else Exec(Step(s, schedule[0]), schedule[1..])
  }

  const Init := System(Repo(map[], map[], map[], map[]), 0, map[], [])

  // ------------------------------------------------------------------ assumptions on the environment

  /** No live worker works for this owner id on this authorization. */
  ghost predicate CallerIsFree(s: System, caller: Caller) {
    forall p :: p in s.workers && !s.workers[p].Finished? ==> CallerOf(s.workers[p].job) != caller
  }

  /** Which result an evaluation for an authorization may have on an input with this hash. */
  type Relation = (string, Digest, Payload) -> bool

  /** What the evaluator returns for the candidates of this very call is allowed for the hashes of their inputs. */
  ghost predicate Allowed(job: Job, allowed: Relation) {
    forall i :: 0 <= i < |job.candidates| ==>
      allowed(job.authId, InputHash(job.candidates[i]), job.evaluator(job.candidates[i]))
  }

  /** A run id that is about to be bound for the first time is unused. */
  ghost predicate NewRunIdIsFresh(s: System, process: string, newId: string) {
    process in s.workers && s.workers[process].Starting? ==>
      var job := s.workers[process].job;
      job.authId in s.repo.auths && ActiveRun(s.repo, s.repo.auths[job.authId]).None? ==>
        EffectiveRunId(job.runId, None, newId) !in s.repo.runs
  }

  /** The reply of a seal that is granted is not lost. */
  ghost predicate SealIsHeard(s: System, process: string, fault: Fault) {
    process in s.workers && fault.LostReply? ==> StepHeard(s.repo, s.workers[process], s.clock, NoFault, "").seal.None?
  }

  /** One live worker per owner id and authorization, fresh run ids, and no lost reply of a granted seal. */
  ghost predicate Admissible(s: System, a: Action, allowed: Relation) {
    match a
    case Spawn(_, job) => CallerIsFree(s, CallerOf(job)) && Allowed(job, allowed)
    case Advance(process, fault, newId) => NewRunIdIsFresh(s, process, newId) && SealIsHeard(s, process, fault)
    case _ => true
  }

  ghost predicate AdmissibleRun(s: System, schedule: seq<Action>, allowed: Relation)
    decreases |schedule|
  {
    schedule != [] ==>
      Admissible(s, schedule[0], allowed) && AdmissibleRun(Step(s, schedule[0]), schedule[1..], allowed)
  }

  lemma {:induction false} RunAppend(s: System, a: seq<Action>, b: seq<Action>, allowed: Relation)
    requires AdmissibleRun(s, a, allowed) && AdmissibleRun(Exec(s, a), b, allowed)
    ensures AdmissibleRun(s, a + b, allowed) && Exec(s, a + b) == Exec(Exec(s, a), b)
    decreases |a|
  {
    if a == [] {
      assert a + b == b;
    } else {
      assert (a + b)[1..] == a[1..] + b;
      RunAppend(Step(s, a[0]), a[1..], b, allowed);
    }
  }

  lemma {:induction false} ExecAppend(s: System, a: seq<Action>, b: seq<Action>)
    ensures Exec(s, a + b) == Exec(Exec(s, a), b)
    decreases |a|
  {
    if a == [] {
      assert a + b == b;
    } else {
      assert (a + b)[1..] == a[1..] + b;
      ExecAppend(Step(s, a[0]), a[1..], b);
    }
  }
}
