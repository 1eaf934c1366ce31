/**
 * `OosRunService.evaluate_cohort` over the in-memory repository.
 *
 * The method is the source's control flow; its contract says that one call is an admissible schedule of
 * the protocol in which only this worker and the clock move. `NextCall` links one call to the next.
 */
module OosRunService {
  import opened Wrappers
  import opened OosRun
  import opened OosProtocol
  import opened OosSystem
  import opened OosSafety
  import opened OosTheorems
  import opened InMemoryOosRunRepository

  /** What leaves the `try` block: a lease error, an error that ends the run for good, or any other. */
  datatype Raised = LeaseLost | EndsRun | Retryable

  /** A clock that never runs backwards. */
  class Clock {
    var now: int

    constructor (start: int)
      ensures now == start
    {
      now := start;
    }

    method Read() returns (t: int)
      modifies this
      ensures t == now && old(now) <= now
    {
      var passed: nat :| true;
      now := now + passed;
      t := now;
    }
  }

  /** The seal a worker has completed, if any. */
  function SealOf(w: Worker): seq<Seal> {
    if w.Finished? && w.outcome.Success? then [w.outcome.value] else []
  }

  /** The system `s0` after this call alone has moved, and has come to `w`. */
  ghost predicate Tracks(s: System, s0: System, repo: Repo, clock: int, process: string, w: Worker) {
    && s.repo == repo && s.clock <= clock
    && s.workers == s0.workers[process := w]
    && s.seals == s0.seals + SealOf(w)
  }

  /** The worker's state after an exception has left the `try` block. */
  function AfterRaise(job: Job, run: EvaluationRun, raised: Raised): Worker {
    match raised
    case LeaseLost => Finished(job, Failure(LeaseError))
    case EndsRun => Failing(job, run, true)
    case Retryable => Failing(job, run, false)
  }

  function RaisedBy(fault: Fault): Raised {
    match fault
    case LeaseFault => LeaseLost
    case Permanent => EndsRun
    case _ => Retryable
  }

  /** Only this worker moves while time passes. */
  ghost predicate OwnSchedule(schedule: seq<Action>, process: string) {
    forall i :: 0 <= i < |schedule| ==> schedule[i].Tick? || (schedule[i].Advance? && schedule[i].process == process)
  }

  /** No reply of a granted seal is lost along the schedule. */
  ghost predicate SealsHeard(s: System, schedule: seq<Action>)
    decreases |schedule|
  {
    schedule != [] ==>
      && (schedule[0].Advance? ==> SealIsHeard(s, schedule[0].process, schedule[0].fault))
      && SealsHeard(Step(s, schedule[0]), schedule[1..])
  }

  /** A schedule of this worker's own; it is admissible if the new run id is fresh and granted seals are heard of. */
  ghost predicate OwnRun(s0: System, schedule: seq<Action>, process: string, isFresh: bool) {
    && OwnSchedule(schedule, process)
    && (isFresh && SealsHeard(s0, schedule) ==> AdmissibleRun(s0, schedule, AnyResult))
  }

  /** The run id that would be bound is unused, if this call binds one at all. */
  ghost predicate FreshStart(repo: Repo, job: Job, newId: string) {
    job.authId in repo.auths && ActiveRun(repo, repo.auths[job.authId]).None? ==>
      EffectiveRunId(job.runId, None, newId) !in repo.runs
  }

  lemma Extend(s: System, trace: seq<Action>, a: Action)
    ensures Exec(s, trace + [a]) == Step(Exec(s, trace), a)
  {
    ExecAppend(s, trace, [a]);
    assert [a][1..] == [];
  }

  lemma {:induction false} HeardBefore(s: System, trace: seq<Action>, a: Action)
    requires SealsHeard(s, trace + [a])
    ensures SealsHeard(s, trace) && (a.Advance? ==> SealIsHeard(Exec(s, trace), a.process, a.fault))
    decreases |trace|
  {
    hide Step;
    hide SealIsHeard;
    if trace == [] {
      assert trace + [a] == [a];
    } else {
      assert (trace + [a])[1..] == trace[1..] + [a];
      HeardBefore(Step(s, trace[0]), trace[1..], a);
    }
  }

  ghost function Now(s0: System, trace: seq<Action>): int {
    Exec(s0, trace).clock
  }

  lemma ExtendRun(s0: System, trace: seq<Action>, process: string, isFresh: bool, a: Action)
    requires OwnRun(s0, trace, process, isFresh) && OwnSchedule([a], process)
    requires isFresh && a.Advance? ==> NewRunIdIsFresh(Exec(s0, trace), process, a.newId)
    ensures OwnRun(s0, trace + [a], process, isFresh)
  {
    hide Step;
    hide SealIsHeard;
    assert [a][0] == a && [a][1..] == [];
    if isFresh && SealsHeard(s0, trace + [a]) {
      HeardBefore(s0, trace, a);
      RunAppend(s0, trace, [a], AnyResult);
    }
  }

  /** A step completes a seal exactly when the worker returns one. */
  lemma StepSeals(repo: Repo, w: Worker, now: int, fault: Fault, newId: string)
    requires !w.Finished?
    ensures var e := StepWorker(repo, w, now, fault, newId);
            SealOf(e.worker) == if e.seal.Some? then [e.seal.value] else []
  {
    hide StartOrResume;
    hide PutCheckpoint;
    hide OosProtocol.Seal;
    hide Interrupt;
    hide CanonicalCohortHash;
    hide IdentityOk;
  }

  /** A schedule of one worker's own steps spawns nobody, so what evaluators may return does not matter. */
  lemma {:induction false} OwnIsAdmissible(s: System, schedule: seq<Action>, process: string, allowed: Relation)
    requires OwnSchedule(schedule, process) && AdmissibleRun(s, schedule, AnyResult)
    ensures AdmissibleRun(s, schedule, allowed)
    decreases |schedule|
  {
    hide Step;
    if schedule != [] {
      assert schedule[0].Tick? || schedule[0].Advance?;
      OwnIsAdmissible(Step(s, schedule[0]), schedule[1..], process, allowed);
    }
  }

  /** The schedule goes on with a step of this worker. */
  lemma Moves(s0: System, isFresh: bool, trace: seq<Action>, repo: Repo, clock: int, process: string, w: Worker,
              fault: Fault, newId: string)
    requires OwnRun(s0, trace, process, isFresh) && Tracks(Exec(s0, trace), s0, repo, clock, process, w) && !w.Finished?
    requires isFresh && w.Starting? ==> FreshStart(repo, w.job, newId)
    ensures var e := StepWorker(repo, w, Now(s0, trace), fault, newId);
            var longer := trace + [Advance(process, fault, newId)];
            OwnRun(s0, longer, process, isFresh) && Tracks(Exec(s0, longer), s0, e.repo, clock, process, e.worker)
  {
    hide StepWorker;
    hide Exec;
    hide SealIsHeard;
    hide SealsHeard;
    Extend(s0, trace, Advance(process, fault, newId));
    ExtendRun(s0, trace, process, isFresh, Advance(process, fault, newId));
    var e := StepWorker(repo, w, Now(s0, trace), fault, newId);
    StepSeals(repo, w, Now(s0, trace), fault, newId);
    assert s0.workers[process := w][process := e.worker] == s0.workers[process := e.worker];
  }

  /** The schedule goes on with a clock reading `t`. */
  lemma Reads(s0: System, isFresh: bool, trace: seq<Action>, repo: Repo, clock: int, process: string, w: Worker, t: int)
    requires OwnRun(s0, trace, process, isFresh) && Tracks(Exec(s0, trace), s0, repo, clock, process, w) && clock <= t
    ensures var longer := trace + [Tick(t - Now(s0, trace))];
            && OwnRun(s0, longer, process, isFresh) && Tracks(Exec(s0, longer), s0, repo, t, process, w)
            && Now(s0, longer) == t
  {
    hide Exec;
    hide SealsHeard;
    Extend(s0, trace, Tick(t - Now(s0, trace)));
    ExtendRun(s0, trace, process, isFresh, Tick(t - Now(s0, trace)));
  }

  /** `RouteError` in the method's terms. */
  function Raise(error: Error): Raised {
    match error
    case LeaseError => LeaseLost
    case CheckpointConflict => EndsRun
    case IdentityError => EndsRun
    case _ => Retryable
  }

  /** The candidate's checkpoint is stored and completed. */
  predicate Collectable(repo: Repo, runId: string, c: Candidate) {
    (runId, c.id) in repo.checkpoints && repo.checkpoints[(runId, c.id)].status.Completed?
  }

  /**
   * The `process` of a call, the system `s0` in which it began, and whether its new run id is `fresh` are
   * ghost: they say which schedule the call is.
   */
  class OosRunService {
    const repository: InMemoryOosRunRepository
    const clock: Clock

    constructor (repository: InMemoryOosRunRepository, clock: Clock)
      ensures this.repository == repository && this.clock == clock
    {
      this.repository, this.clock := repository, clock;
    }

    /** What happens to an external call is not up to the service. */
    method Fate() returns (fault: Fault) {
      fault :| true;
    }

    /** The loop body for a candidate whose checkpoint is missing or unfinished. */
    method EvaluateOne(job: Job, auth: Authorization, run: EvaluationRun, i: nat, results: seq<Payload>,
                       ghost process: string, ghost s0: System, ghost isFresh: bool, ghost before: seq<Action>)
      returns (r: Result<Payload, Raised>, ghost trace: seq<Action>)
      requires i < |job.candidates| && OwnRun(s0, before, process, isFresh)
      requires Tracks(Exec(s0, before), s0, repository.State(), clock.now, process,
                      Active(job, auth, run, Evaluate(i), results))
      modifies repository, clock
      ensures OwnRun(s0, trace, process, isFresh)
      ensures Tracks(Exec(s0, trace), s0, repository.State(), clock.now, process,
                     if r.Success? then Active(job, auth, run, Look(i + 1), results + [r.value])
                     else AfterRaise(job, run, r.error))
    {
      var c := job.candidates[i];
      ghost var w := Active(job, auth, run, Evaluate(i), results);
      var evaluated := Fate();
      if !evaluated.NoFault? {
        var raised := if evaluated.LostReply? then Transient else evaluated;
        Moves(s0, isFresh, before, repository.State(), clock.now, process, w, raised, "");
        return Failure(if raised.Permanent? then EndsRun else Retryable), before + [Advance(process, raised, "")];
      }
      var result := job.evaluator(c);
      ghost var earlier := clock.now;
      var t := clock.Read();
      Reads(s0, isFresh, before, repository.State(), earlier, process, w, t);
      trace := before + [Tick(t - Now(s0, before))];
      var fate := Fate();
      var fault := if fate.NoFault? || fate.LostReply? then fate else Transient;
      Moves(s0, isFresh, trace, repository.State(), t, process, w, fault, "");
      trace := trace + [Advance(process, fault, "")];
      if fault.Transient? {
        return Failure(Retryable), trace;
      }
      var completed := CompletedCheckpoint(run.runId, c.id, InputHash(c), result);
      var put := repository.PutCheckpoint(completed, job.owner, run.token, t);
      if fault.LostReply? {
        return Failure(Retryable), trace;
      }
      if put.Failure? {
        return Failure(Raise(put.error)), trace;
      }
      return Success(result), trace;
    }

    /** The evaluation loop. */
    method EvaluateAll(job: Job, auth: Authorization, run: EvaluationRun, ghost process: string, ghost s0: System,
                       ghost isFresh: bool, ghost before: seq<Action>)
      returns (r: Result<seq<Payload>, Raised>, ghost trace: seq<Action>)
      requires OwnRun(s0, before, process, isFresh)
      requires Tracks(Exec(s0, before), s0, repository.State(), clock.now, process, Active(job, auth, run, Look(0), []))
      modifies repository, clock
      ensures OwnRun(s0, trace, process, isFresh)
      ensures Tracks(Exec(s0, trace), s0, repository.State(), clock.now, process,
                     if r.Success? then Active(job, auth, run, Look(|job.candidates|), r.value)
                     else AfterRaise(job, run, r.error))
    {
      trace := before;
      var results: seq<Payload> := [];
      for i := 0 to |job.candidates|
        invariant OwnRun(s0, trace, process, isFresh)
        invariant Tracks(Exec(s0, trace), s0, repository.State(), clock.now, process,
                         Active(job, auth, run, Look(i), results))
      {
        var c := job.candidates[i];
        var fault := Fate();
        Moves(s0, isFresh, trace, repository.State(), clock.now, process, Active(job, auth, run, Look(i), results),
              fault, "");
        trace := trace + [Advance(process, fault, "")];
        if !fault.NoFault? {
          return Failure(RaisedBy(fault)), trace;
        }
        var checkpoint := repository.GetCheckpoint(run.runId, c.id);
        if checkpoint.Some? && checkpoint.value.inputHash != InputHash(c) {
          return Failure(EndsRun), trace;
        }
        if checkpoint.Some? && checkpoint.value.status.Completed? {
          results := results + [if checkpoint.value.result.Some? then checkpoint.value.result.value else "{}"];
          continue;
        }
        if checkpoint.Some? && checkpoint.value.status.FailedForever? {
          return Failure(EndsRun), trace;
        }
        var result, after := EvaluateOne(job, auth, run, i, results, process, s0, isFresh, trace);
        trace := after;
        if result.Failure? {
          return Failure(result.error), trace;
        }
        results := results + [result.value];
      }
      return Success(results), trace;
    }

    /** The artifact rows of the cohort, in the caller's order. `met` is the fault it met, if any. */
    method CollectRows(job: Job, auth: Authorization, run: EvaluationRun, results: seq<Payload>, ghost process: string,
                       ghost s0: System, ghost isFresh: bool, ghost before: seq<Action>)
      returns (r: Result<seq<Row>, Raised>, ghost trace: seq<Action>, ghost met: Fault)
      requires OwnRun(s0, before, process, isFresh)
      requires Tracks(Exec(s0, before), s0, repository.State(), clock.now, process,
                      Active(job, auth, run, Collect(0, []), results))
      ensures OwnRun(s0, trace, process, isFresh)
      ensures Tracks(Exec(s0, trace), s0, repository.State(), clock.now, process,
                     if r.Success? then Active(job, auth, run, Collect(|job.candidates|, r.value), results)
                     else AfterRaise(job, run, r.error))
      ensures r.Success? <==>
                && met.NoFault?
                && forall i :: 0 <= i < |job.candidates| ==>
                     Collectable(repository.State(), run.runId, job.candidates[i])
      ensures r.Success? ==> |r.value| == |job.candidates| && forall i :: 0 <= i < |r.value| ==>
                r.value[i] == RowOf(repository.State().checkpoints[(run.runId, job.candidates[i].id)])
      ensures r.Failure? ==> r.error == if met.NoFault? then EndsRun else RaisedBy(met)
    {
      trace, met := before, NoFault;
      var rows: seq<Row> := [];
      for i := 0 to |job.candidates|
        invariant OwnRun(s0, trace, process, isFresh) && met.NoFault?
        invariant Tracks(Exec(s0, trace), s0, repository.State(), clock.now, process,
                         Active(job, auth, run, Collect(i, rows), results))
        invariant |rows| == i && forall j :: 0 <= j < i ==>
                    && Collectable(repository.State(), run.runId, job.candidates[j])
                    && rows[j] == RowOf(repository.State().checkpoints[(run.runId, job.candidates[j].id)])
      {
        var fault := Fate();
        ghost var w := Active(job, auth, run, Collect(i, rows), results);
        Moves(s0, isFresh, trace, repository.State(), clock.now, process, w, fault, "");
        trace, met := trace + [Advance(process, fault, "")], fault;
        if !fault.NoFault? {
          return Failure(RaisedBy(fault)), trace, met;
        }
        var checkpoint := repository.GetCheckpoint(run.runId, job.candidates[i].id);
        assert Collectable(repository.State(), run.runId, job.candidates[i])
          <==> checkpoint.Some? && checkpoint.value.status.Completed?;
        if checkpoint.None? || !checkpoint.value.status.Completed? {
          return Failure(EndsRun), trace, met;
        }
        rows := rows + [RowOf(checkpoint.value)];
      }
      return Success(rows), trace, met;
    }

    /** Hashes the rows and seals the run. */
    method SealRows(job: Job, auth: Authorization, run: EvaluationRun, results: seq<Payload>, rows: seq<Row>,
                    ghost process: string, ghost s0: System, ghost isFresh: bool, ghost before: seq<Action>)
      returns (r: Result<Seal, Raised>, ghost trace: seq<Action>)
      requires OwnRun(s0, before, process, isFresh)
      requires Tracks(Exec(s0, before), s0, repository.State(), clock.now, process,
                      Active(job, auth, run, Collect(|job.candidates|, rows), results))
      modifies repository, clock
      ensures OwnRun(s0, trace, process, isFresh)
      ensures Tracks(Exec(s0, trace), s0, repository.State(), clock.now, process,
                     if r.Success? then Finished(job, Success(r.value)) else AfterRaise(job, run, r.error))
    {
      ghost var w := Active(job, auth, run, Collect(|job.candidates|, rows), results);
      ghost var earlier := clock.now;
      var t := clock.Read();
      Reads(s0, isFresh, before, repository.State(), earlier, process, w, t);
      trace := before + [Tick(t - Now(s0, before))];
      var fault := Fate();
      Moves(s0, isFresh, trace, repository.State(), t, process, w, fault, "");
      trace := trace + [Advance(process, fault, "")];
      if !fault.NoFault? && !fault.LostReply? {
        return Failure(RaisedBy(fault)), trace;
      }
      var hash := CanonicalCohortHash(rows, auth, run);
      if hash.Failure? {
        return Failure(Retryable), trace;
      }
      var sealed := repository.Seal(run.runId, job.owner, run.token, Some(hash.value),
                                    ArtifactOf(job.authId, auth, run, rows), t);
      if fault.LostReply? {
        return Failure(Retryable), trace;
      }
      if sealed.Failure? {
        return Failure(Raise(sealed.error)), trace;
      }
      return Success(OosSystem.Seal.Seal(job, run, auth.IdentityHash(), hash.value, rows, results)), trace;
    }

    /** The `try` block after the identity checks and the preflight. */
    method EvaluateAndSeal(job: Job, auth: Authorization, run: EvaluationRun, ghost process: string, ghost s0: System,
                           ghost isFresh: bool, ghost before: seq<Action>)
      returns (r: Result<Seal, Raised>, ghost trace: seq<Action>)
      requires OwnRun(s0, before, process, isFresh)
      requires Tracks(Exec(s0, before), s0, repository.State(), clock.now, process, Active(job, auth, run, Look(0), []))
      modifies repository, clock
      ensures OwnRun(s0, trace, process, isFresh)
      ensures Tracks(Exec(s0, trace), s0, repository.State(), clock.now, process,
                     if r.Success? then Finished(job, Success(r.value)) else AfterRaise(job, run, r.error))
    {
      var results, looped := EvaluateAll(job, auth, run, process, s0, isFresh, before);
      if results.Failure? {
        return Failure(results.error), looped;
      }
      ghost var w := Active(job, auth, run, Look(|job.candidates|), results.value);
      var fault := Fate();
      Moves(s0, isFresh, looped, repository.State(), clock.now, process, w, fault, "");
      trace := looped + [Advance(process, fault, "")];
      if !fault.NoFault? {
        return Failure(RaisedBy(fault)), trace;
      }
      var stored := repository.GetAuthorization(job.authId);
      var latest := if stored.Some? then stored.value else auth;
      var rows, collected, _ := CollectRows(job, latest, run, results.value, process, s0, isFresh, trace);
      if rows.Failure? {
        return Failure(rows.error), collected;
      }
      r, trace := SealRows(job, latest, run, results.value, rows.value, process, s0, isFresh, collected);
    }

    /** The `try` block. */
    method Attempt(job: Job, auth: Authorization, run: EvaluationRun, ghost process: string, ghost s0: System,
                   ghost isFresh: bool, ghost before: seq<Action>)
      returns (r: Result<Seal, Raised>, ghost trace: seq<Action>)
      requires OwnRun(s0, before, process, isFresh)
      requires Tracks(Exec(s0, before), s0, repository.State(), clock.now, process, Active(job, auth, run, Check, []))
      modifies repository, clock
      ensures OwnRun(s0, trace, process, isFresh)
      ensures Tracks(Exec(s0, trace), s0, repository.State(), clock.now, process,
                     if r.Success? then Finished(job, Success(r.value)) else AfterRaise(job, run, r.error))
    {
      var preflight := Fate();
      Moves(s0, isFresh, before, repository.State(), clock.now, process, Active(job, auth, run, Check, []), preflight,
            "");
      trace := before + [Advance(process, preflight, "")];
      if !IdentityOk(job, auth) {
        return Failure(EndsRun), trace;
      }
      if !preflight.NoFault? {
        return Failure(RaisedBy(preflight)), trace;
      }
      r, trace := EvaluateAndSeal(job, auth, run, process, s0, isFresh, trace);
    }

    /** `get_authorization` and `start_or_resume`, before the `try` block. */
    method Begin(job: Job, newId: string, ghost process: string, ghost s0: System, ghost isFresh: bool)
      returns (r: Result<(Authorization, EvaluationRun), Error>, ghost trace: seq<Action>)
      requires Tracks(Exec(s0, []), s0, repository.State(), clock.now, process, Waiting(job))
      requires isFresh ==> FreshStart(repository.State(), job, newId)
      modifies repository, clock
      ensures OwnRun(s0, trace, process, isFresh)
      ensures Tracks(Exec(s0, trace), s0, repository.State(), clock.now, process,
                     if r.Success? then Active(job, r.value.0, r.value.1, Check, [])
                     else Finished(job, Failure(r.error)))
    {
      var fault := Fate();
      Moves(s0, isFresh, [], repository.State(), clock.now, process, Waiting(job), fault, newId);
      trace := [] + [Advance(process, fault, newId)];
      if !fault.NoFault? {
        return Failure(FaultError(fault)), trace;
      }
      var stored := repository.GetAuthorization(job.authId);
      if stored.None? || stored.value.status in {Consumed, Invalidated} {
        return Failure(RuntimeError), trace;
      }
      ghost var w := Starting(job, stored.value);
      ghost var earlier := clock.now;
      var t := clock.Read();
      Reads(s0, isFresh, trace, repository.State(), earlier, process, w, t);
      trace := trace + [Tick(t - Now(s0, trace))];
      fault := Fate();
      Moves(s0, isFresh, trace, repository.State(), t, process, w, fault, newId);
      trace := trace + [Advance(process, fault, newId)];
      if !fault.NoFault? && !fault.LostReply? {
        return Failure(FaultError(fault)), trace;
      }
      var started := repository.StartOrResume(job.authId, job.runId, job.owner, job.lease, job.version, t, newId);
      if fault.LostReply? {
        return Failure(RuntimeError), trace;
      }
      if started.Failure? {
        return Failure(started.error), trace;
      }
      if started.value.version != job.version {
        return Failure(ValueError), trace;
      }
      return Success((stored.value, started.value)), trace;
    }

    /**
     * `evaluate_cohort`. An empty cohort is rejected. Otherwise, in any system over this repository in which
     * this call is about to begin, whoever else is at work, whatever was sealed before and whatever happens
     * to its external calls, the call is a schedule of the protocol for this process: it ends with what the
     * call returns, and its seal is added to those there were. The schedule is admissible, hence keeps the
     * invariant, if a new run id is fresh and no reply of a granted seal is lost.
     */
    method EvaluateCohort(job: Job, newId: string, ghost process: string, ghost s0: System, ghost allowed: Relation)
      returns (r: Result<Seal, Error>, ghost schedule: seq<Action>)
      requires s0.repo == repository.State() && s0.clock <= clock.now
      requires process in s0.workers && s0.workers[process] == Waiting(job)
      modifies repository, clock
      ensures job.candidates == [] ==> r == Failure(ValueError) && repository.State() == old(repository.State())
      ensures job.candidates != [] ==>
                var t := Exec(s0, schedule);
                && OwnSchedule(schedule, process)
                && t.repo == repository.State() && t.clock <= clock.now
                && t.workers == s0.workers[process := Finished(job, r)]
                && t.seals == s0.seals + if r.Success? then [r.value] else []
      ensures job.candidates != [] && FreshStart(s0.repo, job, newId) && SealsHeard(s0, schedule) ==>
                && AdmissibleRun(s0, schedule, allowed)
                && (Inv(s0, allowed) ==> Inv(Exec(s0, schedule), allowed))
    {
      if job.candidates == [] {
        return Failure(ValueError), [];
      }
      ghost var isFresh := FreshStart(s0.repo, job, newId);
      assert s0.workers[process := Waiting(job)] == s0.workers;
      r, schedule := Call(job, newId, process, s0, isFresh);
      if isFresh && SealsHeard(s0, schedule) {
        OwnIsAdmissible(s0, schedule, process, allowed);
        if Inv(s0, allowed) {
          RunKeepsInv(s0, schedule, allowed);
        }
      }
    }

    /** The call for a cohort that is not empty. */
    method Call(job: Job, newId: string, ghost process: string, ghost s0: System, ghost isFresh: bool)
      returns (r: Result<Seal, Error>, ghost trace: seq<Action>)
      requires Tracks(Exec(s0, []), s0, repository.State(), clock.now, process, Waiting(job))
      requires isFresh ==> FreshStart(repository.State(), job, newId)
      modifies repository, clock
      ensures OwnRun(s0, trace, process, isFresh)
      ensures Tracks(Exec(s0, trace), s0, repository.State(), clock.now, process, Finished(job, r))
    {
      var begun, began := Begin(job, newId, process, s0, isFresh);
      if begun.Failure? {
        return Failure(begun.error), began;
      }
      var auth, run := begun.value.0, begun.value.1;
      var attempt, tried := Attempt(job, auth, run, process, s0, isFresh, began);
      if attempt.Success? {
        return Success(attempt.value), tried;
      }
      r, trace := Recover(job, run, attempt.error, process, s0, isFresh, tried);
    }

    /**
     * The `except` clauses: a lease error passes through, every other error interrupts the run first. If the
     * interrupt raises itself, its exception is the one that leaves the call.
     */
    method Recover(job: Job, run: EvaluationRun, raised: Raised, ghost process: string, ghost s0: System,
                   ghost isFresh: bool, ghost before: seq<Action>)
      returns (r: Result<Seal, Error>, ghost trace: seq<Action>)
      requires OwnRun(s0, before, process, isFresh)
      requires Tracks(Exec(s0, before), s0, repository.State(), clock.now, process, AfterRaise(job, run, raised))
      modifies repository, clock
      ensures r.Failure? && OwnRun(s0, trace, process, isFresh)
      ensures Tracks(Exec(s0, trace), s0, repository.State(), clock.now, process, Finished(job, r))
    {
      if raised.LeaseLost? {
        return Failure(LeaseError), before;
      }
      ghost var w := AfterRaise(job, run, raised);
      ghost var earlier := clock.now;
      var t := clock.Read();
      Reads(s0, isFresh, before, repository.State(), earlier, process, w, t);
      trace := before + [Tick(t - Now(s0, before))];
      var fault := Fate();
      Moves(s0, isFresh, trace, repository.State(), t, process, w, fault, "");
      trace := trace + [Advance(process, fault, "")];
      if !fault.NoFault? && !fault.LostReply? {
        return Failure(FaultError(fault)), trace;
      }
      var interrupted := repository.Interrupt(run.runId, job.owner, run.token, t, raised.EndsRun?);
      if fault.LostReply? {
        return Failure(RuntimeError), trace;
      }
      if interrupted.Failure? {
        return Failure(interrupted.error), trace;
      }
      return Failure(if raised.EndsRun? then IdentityError else RuntimeError), trace;
    }
  }

  /** Between calls: a process whose call has returned may begin another one, and the invariant carries over. */
  lemma NextCall(s: System, process: string, job: Job, allowed: Relation)
    requires Inv(s, allowed) && CallerIsFree(s, CallerOf(job)) && Allowed(job, allowed) && job.candidates != []
    ensures var t := Step(s, Spawn(process, job));
            && Inv(t, allowed) && t.repo == s.repo && t.clock == s.clock && t.seals == s.seals
            && t.workers == s.workers[process := Waiting(job)]
  {
    StepKeepsInv(s, Spawn(process, job), allowed);
  }
}
