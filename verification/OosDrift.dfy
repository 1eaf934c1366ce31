/**
 * A cohort whose inputs have changed since a checkpoint was stored: the checkpoint is never reused, and the
 * run ends for good.
 */
module OosDrift {
  import opened Wrappers
  import opened OosRun
  import opened OosProtocol
  import opened OosSystem
  import opened OosSafety
  import opened OosTheorems
  import opened OosConfluence

  /** The worker looks up candidate `i` next and finds a checkpoint. */
  ghost predicate Finds(r: Repo, w: Worker) {
    && w.Active? && w.stage.Look? && w.stage.next < |w.job.candidates|
    && (w.run.runId, w.job.candidates[w.stage.next].id) in r.checkpoints
  }

  function FoundAt(w: Worker): (string, string)
    requires w.Active? && w.stage.Look? && w.stage.next < |w.job.candidates|
  {
    (w.run.runId, w.job.candidates[w.stage.next].id)
  }

  /** The checkpoint that the worker finds was stored for input `d`. */
  ghost predicate StoredFor(r: Repo, w: Worker, d: Candidate)
    requires Finds(r, w)
  {
    r.checkpoints[FoundAt(w)].inputHash == InputHash(d)
  }

  /** The worker goes on with the stored result exactly when its own input is the stored one. */
  lemma ReusedIffSameInput(r: Repo, w: Worker, now: int, d: Candidate, allowed: Relation)
    requires RepoOk(r, allowed) && Finds(r, w) && StoredFor(r, w, d)
    ensures var i := w.stage.next;
            var e := StepWorker(r, w, now, NoFault, "");
            var result := r.checkpoints[FoundAt(w)].result;
            && e.repo == r && e.seal.None?
            && if SameInput(d, w.job.candidates[i])
               then result.Some? && e.worker == w.(stage := Look(i + 1), results := w.results + [result.value])
               else e.worker == Failing(w.job, w.run, true)
  {
    hide RunOk;
    hide AuthOk;
    hide ArtifactOk;
    InputHashIdentifiesInputs(d, w.job.candidates[w.stage.next]);
    assert CheckpointOk(r, FoundAt(w), allowed);
  }

  /** The terminal interrupt of a worker whose token is current. */
  lemma TerminalInterrupt(r: Repo, w: Worker, now: int, allowed: Relation)
    requires RepoOk(r, allowed) && w.Failing? && w.terminal && HoldsRun(r, w.job, w.run)
    ensures var e := StepWorker(r, w, now, NoFault, "");
            if TokenCurrent(r, w.run)
            then Ended(e.repo, w) && e.worker == Finished(w.job, Failure(IdentityError))
            else e.repo == r && e.worker == Finished(w.job, Failure(LeaseError))
  {
    hide CheckpointOk;
    hide ArtifactOk;
    assert RunOk(r, w.run.runId);
  }

  /** The run is FAILED_TERMINAL and its authorization INVALIDATED. */
  ghost predicate Ended(r: Repo, w: Worker)
    requires w.Active? || w.Failing?
  {
    && w.run.runId in r.runs && r.runs[w.run.runId].status.FailedTerminal?
    && w.job.authId in r.auths && r.auths[w.job.authId].status.Invalidated?
    && r.runs[w.run.runId].authorizationId == w.job.authId
  }

  /** It stays so. */
  lemma EndedStays(s: System, w: Worker, schedule: seq<Action>, allowed: Relation)
    requires Inv(s, allowed) && AdmissibleRun(s, schedule, allowed) && (w.Active? || w.Failing?) && Ended(s.repo, w)
    ensures Ended(Exec(s, schedule).repo, w)
  {
    TerminalRunIsFrozen(s, schedule, allowed, w.run.runId);
    hide Inv;
    hide Exec;
    hide AdmissibleRun;
  }

  /** Two steps of a worker that finds a checkpoint of another input. */
  lemma DriftEndsTheRun(s: System, process: string, d: Candidate, allowed: Relation)
    requires Inv(s, allowed) && process in s.workers && Finds(s.repo, s.workers[process])
    requires StoredFor(s.repo, s.workers[process], d)
    requires !SameInput(d, s.workers[process].job.candidates[s.workers[process].stage.next])
    ensures var w := s.workers[process];
            var t := Step(s, Advance(process, NoFault, ""));
            var u := Step(t, Advance(process, NoFault, ""));
            && t.repo == s.repo && process in t.workers && t.workers[process] == Failing(w.job, w.run, true)
            && Inv(u, allowed) && u.seals == s.seals
            && if TokenCurrent(s.repo, w.run) then Ended(u.repo, w) else u.repo == s.repo
  {
    var w, go := s.workers[process], Advance(process, NoFault, "");
    var t := Step(s, go);
    assert WorkerOk(s.repo, w);
    ReusedIffSameInput(s.repo, w, s.clock, d, allowed);
    NothingLost(s, process);
    StepKeepsInv(s, go, allowed);
    AdvanceStep(s, process, NoFault, "");
    hide StepWorker;
    hide Inv;
    hide RepoOk;
    FailingIsAdmissible(t, process);
    assert HoldsRun(t.repo, w.job, w.run);
    RepoIsOk(t, allowed);
    TerminalInterrupt(t.repo, t.workers[process], t.clock, allowed);
    StepKeepsInv(t, go, allowed);
    AdvanceStep(t, process, NoFault, "");
    FailingSealsNothing(t.repo, t.workers[process], t.clock);
  }

  lemma RepoIsOk(s: System, allowed: Relation)
    requires Inv(s, allowed)
    ensures RepoOk(s.repo, allowed)
  {
  }

  lemma NothingLost(s: System, process: string)
    requires process in s.workers && !s.workers[process].Starting?
    ensures Admissible(s, Advance(process, NoFault, ""), AnyResult)
    ensures forall allowed: Relation :: Admissible(s, Advance(process, NoFault, ""), allowed)
  {
  }

  lemma FailingIsAdmissible(s: System, process: string)
    requires process in s.workers && s.workers[process].Failing?
    ensures forall allowed: Relation :: Admissible(s, Advance(process, NoFault, ""), allowed)
  {
  }

  lemma FailingSealsNothing(r: Repo, w: Worker, now: int)
    requires w.Failing?
    ensures StepWorker(r, w, now, NoFault, "").seal.None?
  {
    hide Interrupt;
  }

  /**
   * The drift law, over every admissible schedule. A checkpoint that a worker finds was evaluated by a call for
   * the same authorization on some input. If that is the worker's own input but for the excluded keys, its
   * result is reused; otherwise the worker fails for good and, if nobody has taken its run over, its interrupt
   * leaves FAILED_TERMINAL and INVALIDATED whatever happens afterwards.
   */
  lemma DriftLaw(schedule: seq<Action>, process: string)
    returns (k: nat, d: Candidate)
    requires AdmissibleRun(Init, schedule, AnyResult)
    requires process in Exec(Init, schedule).workers
    requires Finds(Exec(Init, schedule).repo, Exec(Init, schedule).workers[process])
    ensures var s := Exec(Init, schedule);
            var w := s.workers[process];
            var t := Step(s, Advance(process, NoFault, ""));
            var result := s.repo.checkpoints[FoundAt(w)].result;
            && result.Some? && k < |schedule| && Evaluates(schedule[k], d, w.job.authId, result.value)
            && d.id == w.job.candidates[w.stage.next].id
            && process in t.workers
            && if SameInput(d, w.job.candidates[w.stage.next])
               then t.workers[process]
                    == w.(stage := Look(w.stage.next + 1), results := w.results + [result.value])
               else t.workers[process] == Failing(w.job, w.run, true)
    ensures var s := Exec(Init, schedule);
            var w := s.workers[process];
            var u := Step(Step(s, Advance(process, NoFault, "")), Advance(process, NoFault, ""));
            !SameInput(d, w.job.candidates[w.stage.next]) && TokenCurrent(s.repo, w.run) ==>
              forall rest :: AdmissibleRun(u, rest, AnyResult) ==> Ended(Exec(u, rest).repo, w)
  {
    hide Inv;
    hide Exec;
    hide AdmissibleRun;
    hide StepWorker;
    hide Evaluates;
    var s := Exec(Init, schedule);
    RunsAreOk(schedule);
    k, d := StoredInput(schedule, s, process);
    DriftStep(s, process, d, ProducedBy(schedule));
    if !SameInput(d, s.workers[process].job.candidates[s.workers[process].stage.next])
       && TokenCurrent(s.repo, s.workers[process].run)
    {
      DriftEndures(s, process, d);
    }
  }

  lemma RunsAreOk(schedule: seq<Action>)
    requires AdmissibleRun(Init, schedule, AnyResult)
    ensures Inv(Exec(Init, schedule), ProducedBy(schedule)) && Inv(Exec(Init, schedule), AnyResult)
  {
    assert schedule[0..] == schedule;
    var allowed := ProducedBy(schedule);
    EveryEvaluatorIsAllowed(Init, schedule, 0);
    InitInv(allowed);
    RunKeepsInv(Init, schedule, allowed);
    InitInv(AnyResult);
    RunKeepsInv(Init, schedule, AnyResult);
  }

  /** The step of a worker that finds a checkpoint stored for input `d`. */
  lemma DriftStep(s: System, process: string, d: Candidate, allowed: Relation)
    requires Inv(s, allowed) && process in s.workers && Finds(s.repo, s.workers[process])
    requires StoredFor(s.repo, s.workers[process], d)
    ensures var w := s.workers[process];
            var t := Step(s, Advance(process, NoFault, ""));
            var result := s.repo.checkpoints[FoundAt(w)].result;
            && process in t.workers && result.Some?
            && if SameInput(d, w.job.candidates[w.stage.next])
               then t.workers[process] == w.(stage := Look(w.stage.next + 1), results := w.results + [result.value])
               else t.workers[process] == Failing(w.job, w.run, true)
  {
    RepoIsOk(s, allowed);
    hide Inv;
    ReusedIffSameInput(s.repo, s.workers[process], s.clock, d, allowed);
    AdvanceStep(s, process, NoFault, "");
    hide StepWorker;
  }

  /** What the interrupt after a drift leaves stays, over every continuation. */
  lemma DriftEndures(s: System, process: string, d: Candidate)
    requires Inv(s, AnyResult) && process in s.workers && Finds(s.repo, s.workers[process])
    requires StoredFor(s.repo, s.workers[process], d) && TokenCurrent(s.repo, s.workers[process].run)
    requires !SameInput(d, s.workers[process].job.candidates[s.workers[process].stage.next])
    ensures var w := s.workers[process];
            var u := Step(Step(s, Advance(process, NoFault, "")), Advance(process, NoFault, ""));
            forall rest :: AdmissibleRun(u, rest, AnyResult) ==> Ended(Exec(u, rest).repo, w)
  {
    hide Inv;
    hide Exec;
    hide AdmissibleRun;
    hide StepWorker;
    hide Step;
    var w := s.workers[process];
    DriftEndsTheRun(s, process, d, AnyResult);
    var u := Step(Step(s, Advance(process, NoFault, "")), Advance(process, NoFault, ""));
    forall rest | AdmissibleRun(u, rest, AnyResult) ensures Ended(Exec(u, rest).repo, w) {
      EndedStays(u, w, rest, AnyResult);
    }
  }

  lemma StoredInput(schedule: seq<Action>, s: System, process: string) returns (k: nat, d: Candidate)
    requires Inv(s, ProducedBy(schedule)) && process in s.workers && Finds(s.repo, s.workers[process])
    ensures var w := s.workers[process];
            var cp := s.repo.checkpoints[FoundAt(w)];
            && cp.result.Some? && k < |schedule| && Evaluates(schedule[k], d, w.job.authId, cp.result.value)
            && StoredFor(s.repo, w, d) && d.id == w.job.candidates[w.stage.next].id
  {
    var w := s.workers[process];
    assert WorkerOk(s.repo, w);
    assert CheckpointOk(s.repo, FoundAt(w), ProducedBy(schedule));
    var cp := s.repo.checkpoints[FoundAt(w)];
    assert Produced(schedule, w.job.authId, cp.inputHash, cp.result.value);
    k, d :| 0 <= k < |schedule| && Evaluates(schedule[k], d, w.job.authId, cp.result.value)
            && InputHash(d) == cp.inputHash;
  }
}
