/**
 * Recovery: whatever happened before, a worker that starts on an open authorization with the
 * authorized cohort, once no lease stands in the way, drives the run to SEALED.
 */
module OosRecovery {
  import opened Wrappers
  import opened OosRun
  import opened OosProtocol
  import opened OosSystem
  import opened OosSafety
  import opened OosTheorems
  import Text

  /** The worker holds a live lease and every stored checkpoint of the cohort has the worker's input hash. */
  ghost predicate Solo(s: System, process: string, job: Job, run: EvaluationRun) {
    && process in s.workers && s.workers[process].Active?
    && s.workers[process].job == job && s.workers[process].run == run
    && run.runId in s.repo.runs
    && TokenCurrent(s.repo, run)
    && s.clock < s.repo.runs[run.runId].leaseExpiresAt
    && InputsAgree(s.repo, job, run.runId)
  }

  ghost predicate InputsAgree(r: Repo, job: Job, runId: string) {
    forall i :: 0 <= i < |job.candidates| && (runId, job.candidates[i].id) in r.checkpoints ==>
      r.checkpoints[(runId, job.candidates[i].id)].inputHash == InputHash(job.candidates[i])
  }

  function Move(process: string): Action {
    Advance(process, NoFault, "")
  }

  ghost predicate OnlyMoves(schedule: seq<Action>, process: string) {
    forall i :: 0 <= i < |schedule| ==> schedule[i] == Move(process)
  }

  lemma Prepend(s: System, a: Action, rest: seq<Action>, allowed: Relation)
    requires Admissible(s, a, allowed) && AdmissibleRun(Step(s, a), rest, allowed)
    ensures AdmissibleRun(s, [a] + rest, allowed) && Exec(s, [a] + rest) == Exec(Step(s, a), rest)
  {
    assert ([a] + rest)[1..] == rest;
  }

  lemma MoveKeeps(s: System, process: string, allowed: Relation)
    requires Inv(s, allowed) && process in s.workers && s.workers[process].Active?
    ensures Admissible(s, Move(process), allowed) && Inv(Step(s, Move(process)), allowed)
  {
    AdvanceKeepsInv(s, process, NoFault, "", allowed);
  }

  /** A checkpoint that agrees is consumed in one step. */
  lemma LookStep(s: System, process: string, job: Job, run: EvaluationRun, allowed: Relation)
    requires Inv(s, allowed) && Solo(s, process, job, run) && s.workers[process].stage.Look?
    requires s.workers[process].stage.next < |job.candidates|
    ensures var t := Step(s, Move(process));
            && t.repo == s.repo && Solo(t, process, job, run)
            && (var i := s.workers[process].stage.next;
                t.workers[process].stage
                == if (run.runId, job.candidates[i].id) in s.repo.checkpoints then Look(i + 1) else Evaluate(i))
  {
    hide WorkersOk;
    hide JobsAllowed;
    hide SealsOk;
    hide RunOk;
    hide AuthOk;
    hide ArtifactOk;
    var i := s.workers[process].stage.next;
    var key := (run.runId, job.candidates[i].id);
    if key in s.repo.checkpoints {
      assert CheckpointOk(s.repo, key, allowed);
    }
  }

  /** The new checkpoint has this job's input hash, and no other candidate has its key. */
  lemma PutAgrees(r: Repo, job: Job, auth: Authorization, runId: string, i: nat)
    requires i < |job.candidates| && InputsAgree(r, job, runId) && IdentityOk(job, auth)
    ensures var c := job.candidates[i];
            var cp := CompletedCheckpoint(runId, c.id, InputHash(c), job.evaluator(c));
            InputsAgree(r.(checkpoints := r.checkpoints[(runId, c.id) := cp]), job, runId)
  {
    forall j | 0 <= j < |job.candidates| && j != i ensures job.candidates[j].id != job.candidates[i].id {
      assert Ids(job.candidates)[j] == job.candidates[j].id && Ids(job.candidates)[i] == job.candidates[i].id;
    }
  }

  /** A put by a holder with a live lease is granted. */
  lemma PutSucceeds(r: Repo, job: Job, run: EvaluationRun, cp: Checkpoint, now: int)
    requires RunOk(r, run.runId) && HoldsRun(r, job, run) && TokenCurrent(r, run) && cp.runId == run.runId
    requires now < r.runs[run.runId].leaseExpiresAt && (run.runId, cp.candidateId) !in r.checkpoints
    ensures PutCheckpoint(r, cp, job.owner, run.token, now)
         == Outcome(r.(checkpoints := r.checkpoints[(run.runId, cp.candidateId) := cp]), Success(cp))
  {
  }

  lemma EvaluateMoves(r: Repo, w: Worker, now: int)
    requires w.Active? && w.stage.Evaluate? && w.stage.next < |w.job.candidates|
    requires PutCheckpoint(r, NextCheckpoint(w), w.job.owner, w.run.token, now).result.Success?
    ensures var e := StepWorker(r, w, now, NoFault, "");
            && e.repo == PutCheckpoint(r, NextCheckpoint(w), w.job.owner, w.run.token, now).repo && e.seal.None?
            && e.worker.Active? && e.worker.job == w.job && e.worker.run == w.run
            && e.worker.stage == Look(w.stage.next + 1)
  {
    hide PutCheckpoint;
  }

  lemma EvaluateStep(s: System, process: string, job: Job, run: EvaluationRun, allowed: Relation)
    requires Inv(s, allowed) && Solo(s, process, job, run) && s.workers[process].stage.Evaluate?
    ensures s.workers[process].stage.next < |job.candidates|
    ensures var t := Step(s, Move(process));
            && Solo(t, process, job, run) && t.workers[process].stage == Look(s.workers[process].stage.next + 1)
            && t.repo.auths == s.repo.auths
  {
    var w := s.workers[process];
    InvParts(s, process, run.runId, allowed);
    hide Inv;
    PutSucceeds(s.repo, job, run, NextCheckpoint(w), s.clock);
    PutAgrees(s.repo, job, w.auth, run.runId, w.stage.next);
    EvaluateMoves(s.repo, w, s.clock);
    AdvanceStep(s, process, NoFault, "");
    hide Step;
    hide StepWorker;
    hide PutCheckpoint;
    hide InputsAgree;
    hide IdentityOk;
    hide RunOk;
    hide WorkerOk;
  }

  /** The evaluation loop reaches its end. */
  lemma {:induction false} LoopFinishes(s: System, process: string, job: Job, run: EvaluationRun, allowed: Relation)
    returns (schedule: seq<Action>)
    requires Inv(s, allowed) && Solo(s, process, job, run)
    requires s.workers[process].stage.Look? || s.workers[process].stage.Evaluate?
    ensures AdmissibleRun(s, schedule, allowed) && OnlyMoves(schedule, process)
    ensures var t := Exec(s, schedule);
            && Inv(t, allowed) && Solo(t, process, job, run) && t.workers[process].stage == Look(|job.candidates|)
            && t.repo.auths == s.repo.auths
    decreases |job.candidates| - s.workers[process].stage.next, s.workers[process].stage.Look?
  {
    SoloActive(s, process, job, run);
    StepsAhead(s, process, job, run, allowed);
    NothingRuns(s, allowed);
    hide Solo;
    hide Inv;
    hide Step;
    hide Exec;
    hide AdmissibleRun;
    var w := s.workers[process];
    if w.stage.Look? && w.stage.next == |job.candidates| {
      schedule := [];
    } else {
      var t := Step(s, Move(process));
      MoveKeeps(s, process, allowed);
      if w.stage.Look? {
        LookStep(s, process, job, run, allowed);
      } else {
        EvaluateStep(s, process, job, run, allowed);
      }
      SoloActive(t, process, job, run);
      var rest := LoopFinishes(t, process, job, run, allowed);
      schedule := MoveFirst(s, process, rest, allowed);
    }
  }

  /** The loop index never passes the end of the cohort. */
  lemma StepsAhead(s: System, process: string, job: Job, run: EvaluationRun, allowed: Relation)
    requires Inv(s, allowed) && Solo(s, process, job, run)
    ensures var stage := s.workers[process].stage;
            (stage.Look? ==> stage.next <= |job.candidates|) && (stage.Evaluate? ==> stage.next < |job.candidates|)
  {
    InvParts(s, process, run.runId, allowed);
    hide Inv;
  }

  lemma SoloActive(s: System, process: string, job: Job, run: EvaluationRun)
    requires Solo(s, process, job, run)
    ensures process in s.workers && s.workers[process].Active? && s.workers[process].job == job
    ensures s.workers[process].run == run
    ensures run.runId in s.repo.runs
  {
  }

  /** Leaving the loop, and collecting one checkpointed row, change nothing but the worker's stage. */
  lemma CollectMoves(r: Repo, w: Worker, now: int)
    requires w.Active?
    requires w.stage == Look(|w.job.candidates|)
             || (w.stage.Collect? && w.stage.next < |w.job.candidates|
                 && (w.run.runId, w.job.candidates[w.stage.next].id) in r.checkpoints
                 && r.checkpoints[(w.run.runId, w.job.candidates[w.stage.next].id)].status.Completed?)
    ensures var e := StepWorker(r, w, now, NoFault, "");
            && e.repo == r && e.seal.None?
            && e.worker.Active? && e.worker.job == w.job && e.worker.run == w.run && e.worker.stage.Collect?
            && e.worker.stage.next == if w.stage.Look? then 0 else w.stage.next + 1
  {
  }

  lemma SoloAfter(s: System, process: string, job: Job, run: EvaluationRun, e: Effect)
    requires Solo(s, process, job, run) && e.repo == s.repo
    requires e.worker.Active? && e.worker.job == job && e.worker.run == run
    ensures Solo(AfterEffect(s, process, e), process, job, run)
  {
  }

  lemma NextIsCheckpointed(s: System, process: string, job: Job, run: EvaluationRun, allowed: Relation)
    requires Inv(s, allowed) && Solo(s, process, job, run)
    requires s.workers[process].stage.Collect? && s.workers[process].stage.next < |job.candidates|
    ensures var key := (run.runId, job.candidates[s.workers[process].stage.next].id);
            key in s.repo.checkpoints && s.repo.checkpoints[key].status.Completed?
  {
    var w := s.workers[process];
    InvParts(s, process, run.runId, allowed);
    hide Inv;
    assert StageOk(s.repo, job, w.auth, run, w.stage, w.results);
    assert Checkpointed(s.repo, job, run.runId, w.stage.next, w.results[w.stage.next]);
  }

  lemma CollectStep(s: System, process: string, job: Job, run: EvaluationRun, allowed: Relation)
    requires Inv(s, allowed) && Solo(s, process, job, run)
    requires s.workers[process].stage == Look(|job.candidates|)
             || (s.workers[process].stage.Collect? && s.workers[process].stage.next < |job.candidates|)
    ensures var t := Step(s, Move(process));
            && t.repo == s.repo && Solo(t, process, job, run) && t.workers[process].stage.Collect?
            && t.workers[process].stage.next
               == if s.workers[process].stage.Look? then 0 else s.workers[process].stage.next + 1
  {
    hide Inv;
    hide StepWorker;
    hide InputsAgree;
    var w := s.workers[process];
    if w.stage.Collect? {
      NextIsCheckpointed(s, process, job, run, allowed);
    }
    CollectMoves(s.repo, w, s.clock);
    SoloAfter(s, process, job, run, StepWorker(s.repo, w, s.clock, NoFault, ""));
    AdvanceStep(s, process, NoFault, "");
  }

  /** A holder whose lease is live is not refused. */
  lemma SealSucceeds(r: Repo, job: Job, run: EvaluationRun, hash: Digest, artifact: Artifact, now: int)
    requires RunOk(r, run.runId) && HoldsRun(r, job, run) && TokenCurrent(r, run)
    requires now < r.runs[run.runId].leaseExpiresAt
    ensures OosProtocol.Seal(r, run.runId, job.owner, run.token, Some(hash), artifact, now).result.Success?
  {
  }

  lemma SealingEffect(r: Repo, w: Worker, now: int)
    requires w.Active? && w.stage.Collect? && w.stage.next == |w.job.candidates|
    requires WorkerOk(r, w) && RunOk(r, w.run.runId) && TokenCurrent(r, w.run)
    requires now < r.runs[w.run.runId].leaseExpiresAt
    ensures var e := StepCollect(r, w, now, NoFault);
            e.seal.Some? && e.seal.value.job == w.job && e.worker == Finished(w.job, Success(e.seal.value))
  {
    var hash := SealingHash(w.job, w.auth, w.run, w.results, w.stage.rows);
    SealSucceeds(r, w.job, w.run, hash, ArtifactOf(w.job.authId, w.auth, w.run, w.stage.rows), now);
    SealingCall(r, w, now, hash);
  }

  lemma InvParts(s: System, process: string, runId: string, allowed: Relation)
    requires Inv(s, allowed) && process in s.workers && runId in s.repo.runs
    ensures WorkerOk(s.repo, s.workers[process]) && RunOk(s.repo, runId)
  {
  }

  lemma MoveIsCollect(s: System, process: string)
    requires process in s.workers && s.workers[process].Active? && s.workers[process].stage.Collect?
    ensures Step(s, Move(process)) == AfterEffect(s, process, StepCollect(s.repo, s.workers[process], s.clock, NoFault))
  {
    hide StepCollect;
  }

  lemma SealStep(s: System, process: string, job: Job, run: EvaluationRun, allowed: Relation)
    requires Inv(s, allowed) && Solo(s, process, job, run)
    requires s.workers[process].stage.Collect? && s.workers[process].stage.next == |job.candidates|
    ensures Sealed(Step(s, Move(process)), process, job)
  {
    var w := s.workers[process];
    InvParts(s, process, run.runId, allowed);
    hide Inv;
    hide RunOk;
    hide WorkerOk;
    hide StepCollect;
    SealingEffect(s.repo, w, s.clock);
    MoveIsCollect(s, process);
    AfterSeal(s, process, job, StepCollect(s.repo, w, s.clock, NoFault));
  }

  lemma AfterSeal(s: System, process: string, job: Job, e: Effect)
    requires e.seal.Some? && e.seal.value.job == job && e.worker == Finished(job, Success(e.seal.value))
    ensures Sealed(AfterEffect(s, process, e), process, job)
  {
  }

  lemma CollectedAtMost(s: System, process: string, job: Job, run: EvaluationRun, allowed: Relation)
    requires Inv(s, allowed) && Solo(s, process, job, run) && s.workers[process].stage.Collect?
    ensures s.workers[process].stage.next <= |job.candidates|
  {
    var w := s.workers[process];
    InvParts(s, process, run.runId, allowed);
    hide Inv;
    assert StageOk(s.repo, job, w.auth, run, w.stage, w.results);
  }

  /** One more move before a schedule of moves. */
  lemma MoveFirst(s: System, process: string, rest: seq<Action>, allowed: Relation) returns (schedule: seq<Action>)
    requires Inv(s, allowed) && process in s.workers && s.workers[process].Active?
    requires AdmissibleRun(Step(s, Move(process)), rest, allowed) && OnlyMoves(rest, process)
    ensures AdmissibleRun(s, schedule, allowed) && OnlyMoves(schedule, process)
    ensures Exec(s, schedule) == Exec(Step(s, Move(process)), rest)
  {
    hide Inv;
    hide Step;
    hide Exec;
    hide Admissible;
    hide AdmissibleRun;
    hide StepWorker;
    MoveKeeps(s, process, allowed);
    Prepend(s, Move(process), rest, allowed);
    schedule := [Move(process)] + rest;
  }

  lemma SealNow(s: System, process: string, job: Job, run: EvaluationRun, allowed: Relation)
    returns (schedule: seq<Action>)
    requires Inv(s, allowed) && Solo(s, process, job, run)
    requires s.workers[process].stage.Collect? && s.workers[process].stage.next == |job.candidates|
    ensures AdmissibleRun(s, schedule, allowed) && OnlyMoves(schedule, process)
    ensures Sealed(Exec(s, schedule), process, job)
  {
    SoloActive(s, process, job, run);
    NothingRuns(Step(s, Move(process)), allowed);
    hide Solo;
    hide Inv;
    hide Step;
    hide Exec;
    hide AdmissibleRun;
    hide Sealed;
    SealStep(s, process, job, run, allowed);
    schedule := MoveFirst(s, process, [], allowed);
  }

  /** From the end of the loop on, the artifact rows are collected; the seal comes next. */
  lemma {:induction false} CollectionEnds(s: System, process: string, job: Job, run: EvaluationRun, allowed: Relation)
    returns (schedule: seq<Action>)
    requires Inv(s, allowed) && Solo(s, process, job, run)
    requires s.workers[process].stage == Look(|job.candidates|) || s.workers[process].stage.Collect?
    ensures AdmissibleRun(s, schedule, allowed) && OnlyMoves(schedule, process)
    ensures var t := Exec(s, schedule);
            && Inv(t, allowed) && Solo(t, process, job, run) && t.repo == s.repo
            && t.workers[process].stage.Collect? && t.workers[process].stage.next == |job.candidates|
    decreases s.workers[process].stage.Look?,
              if s.workers[process].stage.Collect? then |job.candidates| - s.workers[process].stage.next else 0
  {
    SoloActive(s, process, job, run);
    NothingRuns(s, allowed);
    hide Solo;
    hide Inv;
    hide Step;
    hide Exec;
    hide AdmissibleRun;
    var stage := s.workers[process].stage;
    if stage.Collect? {
      CollectedAtMost(s, process, job, run, allowed);
    }
    if stage.Collect? && stage.next == |job.candidates| {
      schedule := [];
    } else {
      var t := Step(s, Move(process));
      MoveKeeps(s, process, allowed);
      CollectStep(s, process, job, run, allowed);
      SoloActive(t, process, job, run);
      var rest := CollectionEnds(t, process, job, run, allowed);
      schedule := MoveFirst(s, process, rest, allowed);
    }
  }

  /** From the end of the loop on, the artifact rows are collected and sealed. */
  lemma CollectionSeals(s: System, process: string, job: Job, run: EvaluationRun, allowed: Relation)
    returns (schedule: seq<Action>)
    requires Inv(s, allowed) && Solo(s, process, job, run)
    requires s.workers[process].stage == Look(|job.candidates|) || s.workers[process].stage.Collect?
    ensures AdmissibleRun(s, schedule, allowed) && OnlyMoves(schedule, process)
    ensures Sealed(Exec(s, schedule), process, job)
  {
    SoloActive(s, process, job, run);
    hide Solo;
    hide Inv;
    hide Sealed;
    hide Exec;
    hide AdmissibleRun;
    var collect := CollectionEnds(s, process, job, run, allowed);
    var seal := SealNow(Exec(s, collect), process, job, run, allowed);
    RunAppend(s, collect, seal, allowed);
    schedule := collect + seal;
  }

  /** The worker's call returned, and its seal is the latest one. */
  ghost predicate Sealed(s: System, process: string, job: Job) {
    && s.seals != []
    && s.seals[|s.seals| - 1].job == job
    && process in s.workers
    && s.workers[process] == Finished(job, Success(s.seals[|s.seals| - 1]))
  }

  /** Nothing in the repository stands in the way of this worker at this time. */
  ghost predicate CanStart(s: System, process: string, job: Job, newId: string) {
    && CallerIsFree(s, CallerOf(job))
    && job.candidates != [] && job.lease > 0
    && !Text.Blank(job.owner) && !Text.Blank(job.version) && !Text.Blank(job.authId)
    && job.authId in s.repo.auths
    && var auth := s.repo.auths[job.authId];
    && auth.Available()
    && IdentityOk(job, auth)
    && match ActiveRun(s.repo, auth)
       case None =>
         var id := EffectiveRunId(job.runId, None, newId);
         !Text.Blank(id) && id !in s.repo.runs
       case Some(run) =>
         && (job.runId.None? || job.runId.value == run.runId)
         && !Text.Blank(run.runId)
         && run.version == job.version
         && (run.leaseExpiresAt <= s.clock || run.owner == job.owner)
         && InputsAgree(s.repo, job, run.runId)
  }

  lemma SpawnEffect(s: System, process: string, job: Job, newId: string)
    requires job.candidates != [] && job.authId in s.repo.auths && s.repo.auths[job.authId].Available()
    ensures var a := Step(s, Spawn(process, job));
            && a == s.(workers := s.workers[process := Waiting(job)])
            && Step(a, Advance(process, NoFault, newId))
               == s.(workers := s.workers[process := Starting(job, s.repo.auths[job.authId])])
  {
    var a := Step(s, Spawn(process, job));
    assert a.workers[process := Starting(job, s.repo.auths[job.authId])]
        == s.workers[process := Starting(job, s.repo.auths[job.authId])];
  }

  /** Spawning and reading the authorization touch nothing but the worker. */
  lemma SpawnsUp(s: System, process: string, job: Job, newId: string, allowed: Relation)
    returns (start: seq<Action>, b: System)
    requires Inv(s, allowed) && CallerIsFree(s, CallerOf(job)) && Allowed(job, allowed) && job.candidates != []
    requires job.authId in s.repo.auths && s.repo.auths[job.authId].Available()
    ensures AdmissibleRun(s, start, allowed) && b == Exec(s, start) && OnlyThisWorker(start, process, job)
    ensures Inv(b, allowed)
    ensures b == s.(workers := s.workers[process := Starting(job, s.repo.auths[job.authId])])
  {
    var spawn, next := Spawn(process, job), Advance(process, NoFault, newId);
    var a := Step(s, spawn);
    StepKeepsInv(s, spawn, allowed);
    b := Step(a, next);
    StepKeepsInv(a, next, allowed);
    SpawnEffect(s, process, job, newId);
    Prepend(a, next, [], allowed);
    Prepend(s, spawn, [next] + [], allowed);
    start := [spawn] + ([next] + []);
  }

  lemma NothingRuns(s: System, allowed: Relation)
    ensures AdmissibleRun(s, [], allowed) && Exec(s, []) == s
  {
  }

  lemma StartsUp(s: System, process: string, job: Job, newId: string, allowed: Relation)
    returns (start: seq<Action>, t: System, run: EvaluationRun)
    requires Inv(s, allowed) && CanStart(s, process, job, newId) && Allowed(job, allowed)
    ensures AdmissibleRun(s, start, allowed) && t == Exec(s, start) && OnlyThisWorker(start, process, job)
    ensures Inv(t, allowed) && Solo(t, process, job, run) && t.workers[process].stage.Check?
    ensures IdentityOk(job, t.workers[process].auth) && Granted(t.repo, job, run)
  {
    hide Granted;
    hide Inv;
    hide Exec;
    hide AdmissibleRun;
    hide Solo;
    var next := Advance(process, NoFault, newId);
    var first, b := SpawnsUp(s, process, job, newId, allowed);
    run := StartIsGranted(s, b, process, job, newId, allowed);
    StepKeepsInv(b, next, allowed);
    t := Step(b, next);
    NothingRuns(t, allowed);
    Prepend(b, next, [], allowed);
    RunAppend(s, first, [next] + [], allowed);
    start := first + ([next] + []);
  }

  lemma UnusedRunHasNoCheckpoints(r: Repo, job: Job, runId: string, allowed: Relation)
    requires RepoOk(r, allowed) && runId !in r.runs
    ensures InputsAgree(r, job, runId)
  {
    hide RunOk;
    hide AuthOk;
    hide ArtifactOk;
    forall i | 0 <= i < |job.candidates| ensures (runId, job.candidates[i].id) !in r.checkpoints {
      assert (runId, job.candidates[i].id) in r.checkpoints ==> CheckpointOk(r, (runId, job.candidates[i].id), allowed);
    }
  }

  /** What a granted start leaves behind for this job: an open authorization and a run that it may name again. */
  ghost predicate Granted(r: Repo, job: Job, run: EvaluationRun) {
    && job.authId in r.auths && r.auths[job.authId].Available()
    && RunRecordOk(run) && run.owner == job.owner && run.authorizationId == job.authId && run.version == job.version
    && (job.runId.Some? && job.runId.value != "" ==> run.runId == job.runId.value)
  }

  /** The repository grants what `CanStart` asks for. */
  lemma StartSucceeds(s: System, process: string, job: Job, newId: string, allowed: Relation)
    requires RepoOk(s.repo, allowed) && CanStart(s, process, job, newId)
    ensures var out := StartOrResume(s.repo, job.authId, job.runId, job.owner, job.lease, job.version, s.clock, newId);
            && out.result.Success? && out.result.value.version == job.version
            && out.result.value.runId in out.repo.runs && out.repo.runs[out.result.value.runId] == out.result.value
            && s.clock < out.result.value.leaseExpiresAt
            && InputsAgree(out.repo, job, out.result.value.runId)
            && Granted(out.repo, job, out.result.value)
  {
    hide CheckpointOk;
    hide ArtifactOk;
    var r := s.repo;
    var out := StartOrResume(r, job.authId, job.runId, job.owner, job.lease, job.version, s.clock, newId);
    assert AuthOk(r, job.authId);
    if ActiveRun(r, r.auths[job.authId]).None? {
      UnusedRunHasNoCheckpoints(r, job, out.result.value.runId, allowed);
    } else {
      assert RunOk(r, r.auths[job.authId].activeRunId.value);
    }
  }

  lemma StartIsGranted(s: System, b: System, process: string, job: Job, newId: string, allowed: Relation)
    returns (run: EvaluationRun)
    requires Inv(b, allowed) && process in b.workers && job.authId in b.repo.auths
    requires b.workers[process] == Starting(job, b.repo.auths[job.authId])
    requires CanStart(s, process, job, newId) && s.repo == b.repo && s.clock == b.clock
    ensures var t := Step(b, Advance(process, NoFault, newId));
            && Solo(t, process, job, run) && t.workers[process].stage.Check?
            && t.workers[process].auth == b.repo.auths[job.authId]
            && Granted(t.repo, job, run)
  {
    StartSucceeds(s, process, job, newId, allowed);
    hide Inv;
    hide CanStart;
    hide StartOrResume;
    hide InputsAgree;
    hide Granted;
    run := StartOrResume(b.repo, job.authId, job.runId, job.owner, job.lease, job.version, b.clock, newId).result.value;
  }

  /** Every action is the spawn of this job or an undisturbed step of its worker. */
  ghost predicate OnlyThisWorker(schedule: seq<Action>, process: string, job: Job) {
    forall i :: 0 <= i < |schedule| ==>
      schedule[i] == Spawn(process, job)
          || (schedule[i].Advance? && schedule[i].process == process && schedule[i].fault.NoFault?)
  }

  lemma OnlyThese(start: seq<Action>, rest: seq<Action>, process: string, job: Job)
    requires OnlyThisWorker(start, process, job) && OnlyMoves(rest, process)
    ensures OnlyThisWorker(start + rest, process, job)
  {
  }

  lemma CheckStep(a: System, process: string, job: Job, run: EvaluationRun)
    requires Solo(a, process, job, run) && a.workers[process].stage.Check? && IdentityOk(job, a.workers[process].auth)
    ensures Solo(Step(a, Move(process)), process, job, run) && Step(a, Move(process)).workers[process].stage == Look(0)
    ensures Step(a, Move(process)).repo == a.repo
  {
  }

  lemma LoopThenSeal(b: System, process: string, job: Job, run: EvaluationRun, allowed: Relation)
    returns (schedule: seq<Action>)
    requires Inv(b, allowed) && Solo(b, process, job, run) && b.workers[process].stage.Look?
    ensures AdmissibleRun(b, schedule, allowed) && OnlyMoves(schedule, process)
    ensures Sealed(Exec(b, schedule), process, job)
  {
    var loop := LoopFinishes(b, process, job, run, allowed);
    var collect := CollectionSeals(Exec(b, loop), process, job, run, allowed);
    RunAppend(b, loop, collect, allowed);
    schedule := loop + collect;
  }

  lemma CheckedToSealed(a: System, process: string, job: Job, run: EvaluationRun, allowed: Relation)
    returns (schedule: seq<Action>)
    requires Inv(a, allowed) && Solo(a, process, job, run) && a.workers[process].stage.Check?
    requires IdentityOk(job, a.workers[process].auth)
    ensures AdmissibleRun(a, schedule, allowed) && OnlyMoves(schedule, process)
    ensures Sealed(Exec(a, schedule), process, job)
  {
    hide Inv;
    hide Admissible;
    hide Step;
    hide Exec;
    hide AdmissibleRun;
    hide Sealed;
    hide IdentityOk;
    MoveKeeps(a, process, allowed);
    CheckStep(a, process, job, run);
    var rest := LoopThenSeal(Step(a, Move(process)), process, job, run, allowed);
    schedule := MoveFirst(a, process, rest, allowed);
  }

  /**
   * Recovery. From every state of the protocol in which the authorization is open and nothing blocks
   * the start, some continuation in which only this worker moves ends with its cohort sealed.
   */
  lemma CohortCanAlwaysBeSealed(s: System, process: string, job: Job, newId: string, allowed: Relation)
    returns (schedule: seq<Action>)
    requires Inv(s, allowed) && CanStart(s, process, job, newId) && Allowed(job, allowed)
    ensures AdmissibleRun(s, schedule, allowed) && OnlyThisWorker(schedule, process, job)
    ensures Sealed(Exec(s, schedule), process, job)
  {
    var start, a, run := StartsUp(s, process, job, newId, allowed);
    var rest := CheckedToSealed(a, process, job, run, allowed);
    RunAppend(s, start, rest, allowed);
    OnlyThese(start, rest, process, job);
    schedule := start + rest;
  }
}
