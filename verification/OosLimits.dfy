/**
 * Where exactly-once ends. Two of the assumptions of `Admissible` are about the environment of a call: no
 * second live call of the same owner on the same authorization, and no lost reply of a granted seal. This
 * module shows what happens without them.
 */
module OosLimits {
  import opened Wrappers
  import opened OosRun
  import opened OosProtocol
  import opened OosSystem
  import opened OosSafety
  import opened OosTheorems
  import opened OosRecovery
  import opened OosInvalidation
  import D = OosDatabase
  import Text

  // ------------------------------------------------------------------ a lost reply

  /** The worker's `seal` call would be granted now. */
  ghost predicate SealGranted(r: Repo, w: Worker, now: int) {
    StepHeard(r, w, now, NoFault, "").seal.Some?
  }

  /** What a granted seal writes. */
  lemma GrantedSealWrites(r: Repo, w: Worker, now: int)
    requires SealGranted(r, w, now)
    ensures w.Active? && w.stage.Collect? && w.run.runId in r.runs
    ensures var t := StepHeard(r, w, now, NoFault, "").repo;
            var a := r.runs[w.run.runId].authorizationId;
            && w.run.runId in t.runs && t.runs[w.run.runId].status.Sealed?
            && t.runs[w.run.runId].owner == w.job.owner && t.runs[w.run.runId].token == w.run.token
            && t.runs[w.run.runId].authorizationId == a && a in t.auths
            && t.auths[a].status.Consumed? && t.auths[a].activeRunId == Some(w.run.runId)
            && t.runs[w.run.runId].cohortHash.Some? && t.runs[w.run.runId].cohortHash.value in t.artifacts
  {
    hide CanonicalCohortHash;
    hide IdentityOk;
  }

  lemma SealedFailing(s: System, process: string, newId: string)
    requires process in s.workers && SealGranted(s.repo, s.workers[process], s.clock)
    ensures var t := Step(s, Advance(process, LostReply, newId));
            process in t.workers && !WorkerOk(t.repo, t.workers[process])
  {
    var w := s.workers[process];
    GrantedSealWrites(s.repo, w, s.clock);
    SealSameRepo(s.repo, w, s.clock, newId);
    hide StepHeard;
    assert Step(s, Advance(process, LostReply, newId)).workers[process] == Failing(w.job, w.run, false);
  }

  /** A step of a worker whose new run id is fresh keeps the invariant unless the reply of a granted seal is lost. */
  lemma InvariantNeedsTheReply(s: System, process: string, fault: Fault, newId: string, allowed: Relation)
    requires Inv(s, allowed) && process in s.workers && NewRunIdIsFresh(s, process, newId)
    ensures Inv(Step(s, Advance(process, fault, newId)), allowed) <==> SealIsHeard(s, process, fault)
  {
    if SealIsHeard(s, process, fault) {
      AdvanceKeepsInv(s, process, fault, newId, allowed);
    } else {
      SealedFailing(s, process, newId);
      hide Step;
      hide WorkerOk;
      hide RepoOk;
    }
  }

  lemma SealSameRepo(r: Repo, w: Worker, now: int, newId: string)
    requires w.Active?
    ensures StepHeard(r, w, now, NoFault, newId) == StepHeard(r, w, now, NoFault, "")
  {
    hide CanonicalCohortHash;
    hide IdentityOk;
    hide PutCheckpoint;
    hide OosProtocol.Seal;
  }

  /**
   * A lost reply undoes the seal: the run was SEALED and its authorization CONSUMED, and after the worker's
   * own interrupt the run is INTERRUPTED and the authorization open again, with the artifact still stored.
   */
  lemma LostReplyUndoesTheSeal(s: System, process: string)
    requires process in s.workers && SealGranted(s.repo, s.workers[process], s.clock)
    ensures var w := s.workers[process];
            var t := Step(s, Advance(process, LostReply, ""));
            var u := Step(t, Advance(process, NoFault, ""));
            var id := w.run.runId;
            && id in s.repo.runs && id in t.repo.runs && id in u.repo.runs
            && t.repo.runs[id].status.Sealed? && u.repo.runs[id].status.Interrupted?
            && var a := s.repo.runs[id].authorizationId;
            && a in t.repo.auths && a in u.repo.auths
            && t.repo.auths[a].status.Consumed? && u.repo.auths[a].status.EvaluatingInterrupted?
            && u.repo.auths[a].Available()
            && t.repo.runs[id].cohortHash.Some? && t.repo.runs[id].cohortHash.value in u.repo.artifacts
            && u.seals == s.seals && u.workers[process] == Finished(w.job, Failure(RuntimeError))
  {
    GrantedSealWrites(s.repo, s.workers[process], s.clock);
    hide StepHeard;
    var w := s.workers[process];
    var t := Step(s, Advance(process, LostReply, ""));
    assert t.workers[process] == Failing(w.job, w.run, false);
    FailingStep(t, process);
  }

  lemma FailingStep(t: System, process: string)
    requires process in t.workers && t.workers[process].Failing?
    ensures Step(t, Advance(process, NoFault, ""))
         == AfterEffect(t, process, StepFailing(t.repo, t.workers[process], t.clock, NoFault))
  {
  }

  /** Over the database the undone seal can never be repeated: its run id stays in the unique index. */
  lemma UndoneSealStaysUndone(r: Repo, index: map<string, Digest>, runId: string, owner: string, token: int,
                              hash: Digest, artifact: Artifact, now: int)
    requires runId in index
    ensures D.Seal(r, index, runId, owner, token, Some(hash), artifact, now).result.Failure?
    ensures D.Seal(r, index, runId, owner, token, Some(hash), artifact, now).repo == r
  {
  }

  // ------------------------------------------------------------------ two live calls of one caller

  /** Everything `Admissible` asks for, except that callers are told apart. */
  ghost predicate AdmissibleButForTwins(s: System, a: Action, allowed: Relation) {
    match a
    case Spawn(_, job) => Allowed(job, allowed)
    case _ => Admissible(s, a, allowed)
  }

  ghost predicate RunButForTwins(s: System, schedule: seq<Action>, allowed: Relation)
    decreases |schedule|
  {
    schedule != [] ==>
      && AdmissibleButForTwins(s, schedule[0], allowed)
      && RunButForTwins(Step(s, schedule[0]), schedule[1..], allowed)
  }

  lemma {:induction false} AdmissibleIsButForTwins(s: System, schedule: seq<Action>, allowed: Relation)
    requires AdmissibleRun(s, schedule, allowed)
    ensures RunButForTwins(s, schedule, allowed)
    decreases |schedule|
  {
    hide Step;
    if schedule != [] {
      AdmissibleIsButForTwins(Step(s, schedule[0]), schedule[1..], allowed);
    }
  }

  lemma {:induction false} ButForTwinsAppend(s: System, a: seq<Action>, b: seq<Action>, allowed: Relation)
    requires RunButForTwins(s, a, allowed) && RunButForTwins(Exec(s, a), b, allowed)
    ensures RunButForTwins(s, a + b, allowed)
    decreases |a|
  {
    hide Step;
    hide AdmissibleButForTwins;
    if a == [] {
      assert a + b == b;
    } else {
      assert (a + b)[1..] == a[1..] + b;
      ButForTwinsAppend(Step(s, a[0]), a[1..], b, allowed);
    }
  }

  /** The system with one more worker. */
  function With(s: System, process: string, w: Worker): System {
    s.(workers := s.workers[process := w])
  }

  lemma StepBeside(s: System, a: Action, process: string, w: Worker, allowed: Relation)
    requires Admissible(s, a, allowed) && process !in s.workers
    requires (a.Spawn? || a.Advance?) && a.process != process
    ensures Step(With(s, process, w), a) == With(Step(s, a), process, w) && process !in Step(s, a).workers
    ensures AdmissibleButForTwins(With(s, process, w), a, allowed)
  {
    hide StepWorker;
    hide StepHeard;
    var t := With(s, process, w);
    if a.Spawn? {
      assert t.workers[a.process := Waiting(a.job)] == s.workers[a.process := Waiting(a.job)][process := w];
    } else if a.process in s.workers {
      var e := StepWorker(s.repo, s.workers[a.process], s.clock, a.fault, a.newId);
      assert t.workers[a.process := e.worker] == s.workers[a.process := e.worker][process := w];
    }
  }

  /** A worker that does not move does not disturb a schedule of somebody else. */
  lemma {:induction false} RunsBeside(s: System, schedule: seq<Action>, process: string, w: Worker, twin: string,
                                      job: Job, allowed: Relation)
    requires AdmissibleRun(s, schedule, allowed) && OnlyThisWorker(schedule, twin, job)
    requires process !in s.workers && process != twin
    ensures RunButForTwins(With(s, process, w), schedule, allowed)
    ensures Exec(With(s, process, w), schedule) == With(Exec(s, schedule), process, w)
    decreases |schedule|
  {
    hide Step;
    hide With;
    hide Admissible;
    hide AdmissibleButForTwins;
    if schedule != [] {
      var a := schedule[0];
      assert a == Spawn(twin, job) || (a.Advance? && a.process == twin);
      StepBeside(s, a, process, w, allowed);
      RunsBeside(Step(s, a), schedule[1..], process, w, twin, job, allowed);
    }
  }

  /** A live lease of this caller on this run, as `_owned` checks it. */
  ghost predicate Leased(r: Repo, caller: Caller, runId: string, token: int, now: int) {
    && Owned(r, runId, caller.owner, token, now, false).Success?
    && r.runs[runId].authorizationId == caller.authId && r.runs[runId].runId == runId
  }

  lemma StartKeepsLease(r: Repo, w: Worker, now: int, newId: string, runId: string, token: int)
    requires w.Starting? && Leased(r, CallerOf(w.job), runId, token, now)
    ensures Leased(StepStarting(r, w, now, newId).repo, CallerOf(w.job), runId, token, now)
  {
  }

  lemma EvaluateKeepsLease(r: Repo, w: Worker, now: int, runId: string, token: int)
    requires w.Active? && w.stage.Evaluate? && w.stage.next < |w.job.candidates|
    requires Leased(r, CallerOf(w.job), runId, token, now)
    ensures Leased(StepEvaluate(r, w, now, NoFault).repo, CallerOf(w.job), runId, token, now)
  {
  }

  lemma CollectKeepsLease(r: Repo, w: Worker, now: int, runId: string, token: int)
    requires w.Active? && w.stage.Collect? && Leased(r, CallerOf(w.job), runId, token, now)
    requires forall id :: id in r.runs ==> r.runs[id].runId == id
    ensures Leased(StepCollect(r, w, now, NoFault).repo, CallerOf(w.job), runId, token, now)
  {
    hide CanonicalCohortHash;
  }

  lemma FailingKeepsLease(r: Repo, w: Worker, now: int, runId: string, token: int)
    requires w.Failing? && Leased(r, CallerOf(w.job), runId, token, now)
    ensures Leased(StepFailing(r, w, now, NoFault).repo, CallerOf(w.job), runId, token, now)
  {
  }

  /** Nothing a twin does costs the caller its lease: it resumes the same run under the same token. */
  lemma TwinKeepsLease(r: Repo, w: Worker, now: int, newId: string, runId: string, token: int, allowed: Relation)
    requires RepoOk(r, allowed) && Leased(r, CallerOf(w.job), runId, token, now)
    ensures Leased(StepHeard(r, w, now, NoFault, newId).repo, CallerOf(w.job), runId, token, now)
  {
    hide StepStarting;
    hide StepEvaluate;
    hide StepCollect;
    hide StepFailing;
    hide Leased;
    match w
    case Waiting(_) =>
    case Starting(_, _) => StartKeepsLease(r, w, now, newId, runId, token);
    case Active(_, _, _, Check, _) =>
    case Active(_, _, _, Look(_), _) =>
    case Active(_, _, _, Evaluate(i), _) =>
      if i < |w.job.candidates| { EvaluateKeepsLease(r, w, now, runId, token); }
    case Active(_, _, _, Collect(_, _), _) =>
      forall id | id in r.runs ensures r.runs[id].runId == id { assert RunOk(r, id); }
      CollectKeepsLease(r, w, now, runId, token);
    case Failing(_, _, _) => FailingKeepsLease(r, w, now, runId, token);
    case Finished(_, _) =>
  }

  /** The worker of this process, if there is one, works on this job. */
  ghost predicate Works(s: System, process: string, job: Job) {
    process in s.workers ==> s.workers[process].job == job
  }

  lemma LeaseStep(s: System, a: Action, twin: string, job: Job, runId: string, token: int, allowed: Relation)
    requires Inv(s, allowed) && Admissible(s, a, allowed) && Works(s, twin, job)
    requires a == Spawn(twin, job) || (a.Advance? && a.process == twin && a.fault.NoFault?)
    requires Leased(s.repo, CallerOf(job), runId, token, s.clock)
    ensures var t := Step(s, a);
            Works(t, twin, job) && t.clock == s.clock && Leased(t.repo, CallerOf(job), runId, token, t.clock)
  {
    hide StepHeard;
    hide Leased;
    if a.Advance? && twin in s.workers {
      TwinKeepsLease(s.repo, s.workers[twin], s.clock, a.newId, runId, token, allowed);
      StepKeepsCall(s.repo, s.workers[twin], s.clock, NoFault, a.newId);
    }
  }

  lemma {:induction false} LeaseLasts(s: System, schedule: seq<Action>, twin: string, job: Job, runId: string,
                                      token: int, allowed: Relation)
    requires Inv(s, allowed) && AdmissibleRun(s, schedule, allowed)
    requires OnlyThisWorker(schedule, twin, job) && Works(s, twin, job)
    requires Leased(s.repo, CallerOf(job), runId, token, s.clock)
    ensures var t := Exec(s, schedule); t.clock == s.clock && Leased(t.repo, CallerOf(job), runId, token, t.clock)
    decreases |schedule|
  {
    hide Step;
    hide Leased;
    hide Admissible;
    hide Works;
    if schedule != [] {
      LeaseStep(s, schedule[0], twin, job, runId, token, allowed);
      StepKeepsInv(s, schedule[0], allowed);
      hide Inv;
      LeaseLasts(Step(s, schedule[0]), schedule[1..], twin, job, runId, token, allowed);
    }
  }

  /** A worker of the invariant that is about to seal under a live lease holds that lease and has its hash. */
  lemma AboutToSeal(s: System, process: string, job: Job, run: EvaluationRun, allowed: Relation)
    requires Inv(s, allowed) && Solo(s, process, job, run)
    requires s.workers[process].stage.Collect? && s.workers[process].stage.next == |job.candidates|
    ensures var w := s.workers[process];
            && CanonicalCohortHash(w.stage.rows, w.auth, w.run).Success?
            && Leased(s.repo, CallerOf(job), run.runId, run.token, s.clock)
            && job.authId in s.repo.auths && IdentityOk(job, s.repo.auths[job.authId])
            && ActiveRun(s.repo, s.repo.auths[job.authId]) == Some(s.repo.runs[run.runId])
            && s.repo.runs[run.runId].version == job.version
            && s.repo.runs[run.runId].runId == run.runId && s.repo.runs[run.runId].owner == job.owner
  {
    var w := s.workers[process];
    InvParts(s, process, run.runId, allowed);
    hide Inv;
    var _ := SealingHash(job, w.auth, run, w.results, w.stage.rows);
    IdentityTransfers(job, w.auth, s.repo.auths[job.authId]);
  }

  /** Without the worker that is about to seal, a second call with the same arguments may start. */
  lemma TwinCanStart(s: System, process: string, twin: string, job: Job, run: EvaluationRun, newId: string,
                     allowed: Relation)
    requires Inv(s, allowed) && Solo(s, process, job, run) && Granted(s.repo, job, run)
    requires s.workers[process].stage.Collect? && s.workers[process].stage.next == |job.candidates|
    requires job.candidates != [] && job.lease > 0 && job.runId != Some("")
    ensures CanStart(Step(s, Crash(process)), twin, job, newId)
  {
    hide Inv;
    hide IdentityOk;
    hide CanonicalCohortHash;
    hide Text.Blank;
    hide CallerIsFree;
    AboutToSeal(s, process, job, run, allowed);
    FreeAfterCrash(s, process, allowed);
  }

  lemma FreeAfterCrash(s: System, process: string, allowed: Relation)
    requires Inv(s, allowed) && process in s.workers && s.workers[process].Active?
    ensures CallerIsFree(Step(s, Crash(process)), CallerOf(s.workers[process].job))
  {
    hide RepoOk;
    hide WorkersOk;
    hide SealsOk;
    hide JobsAllowed;
  }

  /** The seal call of a worker that holds a live lease succeeds, whatever its twin has sealed. */
  lemma SealsAgain(s: System, process: string)
    requires process in s.workers && s.workers[process].Active?
    requires var w := s.workers[process];
             && w.stage.Collect? && w.stage.next == |w.job.candidates|
             && CanonicalCohortHash(w.stage.rows, w.auth, w.run).Success?
             && Leased(s.repo, CallerOf(w.job), w.run.runId, w.run.token, s.clock)
    ensures var t := Step(s, Advance(process, NoFault, ""));
            |t.seals| == |s.seals| + 1 && t.seals[..|s.seals|] == s.seals
                && t.seals[|s.seals|].job == s.workers[process].job
    ensures AdmissibleButForTwins(s, Advance(process, NoFault, ""), AnyResult)
  {
    hide CanonicalCohortHash;
  }

  /** What a crash leaves, and what bringing the worker back gives. */
  lemma Crashed(s: System, process: string)
    requires process in s.workers
    ensures var t := Step(s, Crash(process));
            && t.repo == s.repo && t.clock == s.clock && t.workers.Keys == s.workers.Keys - {process}
            && With(t, process, s.workers[process]) == s
  {
    assert (s.workers - {process})[process := s.workers[process]] == s.workers;
  }

  lemma WithParts(s: System, process: string, w: Worker)
    ensures var t := With(s, process, w);
            t.repo == s.repo && t.clock == s.clock && t.seals == s.seals && process in t.workers
                && t.workers[process] == w
  {
  }

  lemma SealedLast(s: System, process: string, job: Job)
    requires OosRecovery.Sealed(s, process, job)
    ensures s.seals != [] && s.seals[|s.seals| - 1].job == job
  {
  }

  /** A worker beside which a second call has sealed is where it was, and still has its lease. */
  ghost predicate Beaten(u: System, process: string, w: Worker, job: Job, run: EvaluationRun) {
    && u.seals != [] && u.seals[|u.seals| - 1].job == job
    && process in u.workers && u.workers[process] == w
    && Leased(u.repo, CallerOf(job), run.runId, run.token, u.clock)
  }

  /** Beside a worker that holds a lease, a second call with the same arguments seals the run. */
  lemma TwinSealsFirst(s: System, process: string, twin: string, job: Job, run: EvaluationRun, newId: string,
                       allowed: Relation)
    returns (first: seq<Action>)
    requires Inv(s, allowed) && process in s.workers && twin !in s.workers && Allowed(job, allowed)
    requires CanStart(Step(s, Crash(process)), twin, job, newId)
    requires Leased(s.repo, CallerOf(job), run.runId, run.token, s.clock)
    ensures RunButForTwins(s, first, allowed) && Beaten(Exec(s, first), process, s.workers[process], job, run)
  {
    hide Inv;
    hide Step;
    hide Exec;
    hide AdmissibleRun;
    hide RunButForTwins;
    hide CanStart;
    hide Leased;
    hide OosRecovery.Sealed;
    hide With;
    hide Allowed;
    hide OnlyThisWorker;
    var w, t := s.workers[process], Step(s, Crash(process));
    CrashKeepsInv(s, process, allowed);
    Crashed(s, process);
    first := CohortCanAlwaysBeSealed(t, twin, job, newId, allowed);
    RunsBeside(t, first, process, w, twin, job, allowed);
    LeaseLasts(t, first, twin, job, run.runId, run.token, allowed);
    WithParts(Exec(t, first), process, w);
    SealedLast(Exec(t, first), twin, job);
  }

  /**
   * Twins. A worker is about to seal; a second call with the same arguments comes in, takes over the same run
   * under the same token and seals it; and then the first one seals it again. Nothing but the assumption on
   * callers is broken.
   */
  lemma TwinSealsToo(s: System, process: string, twin: string, job: Job, run: EvaluationRun, newId: string,
                     allowed: Relation)
    returns (schedule: seq<Action>)
    requires Inv(s, allowed) && Solo(s, process, job, run) && Granted(s.repo, job, run)
    requires s.workers[process].stage.Collect? && s.workers[process].stage.next == |job.candidates|
    requires job.candidates != [] && job.lease > 0 && job.runId != Some("")
    requires twin !in s.workers && Allowed(job, allowed)
    ensures RunButForTwins(s, schedule, allowed)
    ensures SealedTwice(Exec(s, schedule), job.authId)
  {
    SoloActive(s, process, job, run);
    hide Inv;
    hide Solo;
    hide Step;
    hide Exec;
    hide RunButForTwins;
    hide CanStart;
    hide Leased;
    hide CanonicalCohortHash;
    hide IdentityOk;
    hide Granted;
    hide Allowed;
    AboutToSeal(s, process, job, run, allowed);
    TwinCanStart(s, process, twin, job, run, newId, allowed);
    var first := TwinSealsFirst(s, process, twin, job, run, newId, allowed);
    schedule := SecondSeal(s, first, Exec(s, first), process, job, allowed);
  }

  lemma SecondSeal(s: System, first: seq<Action>, u: System, process: string, job: Job, allowed: Relation)
    returns (schedule: seq<Action>)
    requires u == Exec(s, first) && RunButForTwins(s, first, allowed)
    requires u.seals != [] && u.seals[|u.seals| - 1].job == job
    requires process in u.workers && u.workers[process].Active? && u.workers[process].job == job
    requires var w := u.workers[process];
             && w.stage.Collect? && w.stage.next == |w.job.candidates|
             && CanonicalCohortHash(w.stage.rows, w.auth, w.run).Success?
             && Leased(u.repo, CallerOf(w.job), w.run.runId, w.run.token, u.clock)
    ensures RunButForTwins(s, schedule, allowed)
    ensures SealedTwice(Exec(s, schedule), job.authId)
  {
    var last := Advance(process, NoFault, "");
    SealsAgain(u, process);
    hide Leased;
    hide CanonicalCohortHash;
    hide Step;
    schedule := first + [last];
    assert [last][1..] == [] && [last][0] == last;
    assert RunButForTwins(Step(u, last), [], allowed);
    ButForTwinsAppend(s, first, [last], allowed);
    ExecAppend(s, first, [last]);
    assert Exec(u, [last]) == Step(u, last);
    var v := Step(u, last);
    assert v.seals[|u.seals| - 1] == u.seals[|u.seals| - 1];
  }

  /** Two completed seals name the authorization. */
  ghost predicate SealedTwice(s: System, a: string) {
    exists i, j :: 0 <= i < j < |s.seals| && s.seals[i].job.authId == a && s.seals[j].job.authId == a
  }

  /** It happens from the empty system, for every job that may start at once. */
  lemma TwinsSealTwice(q: Request, process: string, twin: string, job: Job, newId: string, allowed: Relation)
    returns (schedule: seq<Action>)
    requires StartsAtOnce(q, job, newId) && Allowed(job, allowed) && process != twin && job.runId != Some("")
    ensures RunButForTwins(Init, schedule, allowed)
    ensures SealedTwice(Exec(Init, schedule), job.authId)
  {
    var open := Step(Init, Authorize(q));
    var ready, t, run := ReadyToSeal(q, process, job, newId, allowed);
    var second := TwinSealsToo(t, process, twin, job, run, newId, allowed);
    AdmissibleIsButForTwins(Init, ready, allowed);
    ButForTwinsAppend(Init, ready, second, allowed);
    ExecAppend(Init, ready, second);
    schedule := ready + second;
  }

  /** From the empty system one call alone comes to the point where it seals. */
  lemma ReadyToSeal(q: Request, process: string, job: Job, newId: string, allowed: Relation)
    returns (schedule: seq<Action>, t: System, run: EvaluationRun)
    requires StartsAtOnce(q, job, newId) && Allowed(job, allowed)
    ensures AdmissibleRun(Init, schedule, allowed) && t == Exec(Init, schedule) && Inv(t, allowed)
    ensures Solo(t, process, job, run) && Granted(t.repo, job, run)
    ensures t.workers[process].stage.Collect? && t.workers[process].stage.next == |job.candidates|
    ensures t.workers.Keys == {process}
  {
    var open := Step(Init, Authorize(q));
    InitInv(allowed);
    StepKeepsInv(Init, Authorize(q), allowed);
    OpensUp(q, process, job, newId);
    var start, a, run0 := StartsUp(open, process, job, newId, allowed);
    run := run0;
    var rest := CheckedToReady(a, process, job, run, allowed);
    RunAppend(open, start, rest, allowed);
    Prepend(Init, Authorize(q), start + rest, allowed);
    schedule := [Authorize(q)] + (start + rest);
    t := Exec(Init, schedule);
    OnlyThese(start, rest, process, job);
    OneWorker(open, start + rest, process, job);
  }

  lemma OpensUp(q: Request, process: string, job: Job, newId: string)
    requires StartsAtOnce(q, job, newId)
    ensures var open := Step(Init, Authorize(q));
            CanStart(open, process, job, newId) && open.workers == map[]
  {
  }

  lemma {:induction false} OneWorker(s: System, schedule: seq<Action>, process: string, job: Job)
    requires OnlyThisWorker(schedule, process, job) && s.workers.Keys <= {process}
    ensures Exec(s, schedule).workers.Keys <= {process}
    decreases |schedule|
  {
    hide StepWorker;
    if schedule != [] {
      var a := schedule[0];
      assert a == Spawn(process, job) || (a.Advance? && a.process == process);
      OneWorker(Step(s, a), schedule[1..], process, job);
    }
  }

  /** From the identity checks to the point where the worker seals. */
  lemma CheckedToReady(a: System, process: string, job: Job, run: EvaluationRun, allowed: Relation)
    returns (schedule: seq<Action>)
    requires Inv(a, allowed) && Solo(a, process, job, run) && a.workers[process].stage.Check?
    requires IdentityOk(job, a.workers[process].auth)
    ensures AdmissibleRun(a, schedule, allowed) && OnlyMoves(schedule, process)
    ensures var t := Exec(a, schedule);
            && Inv(t, allowed) && Solo(t, process, job, run) && t.repo.auths == a.repo.auths
            && t.workers[process].stage.Collect? && t.workers[process].stage.next == |job.candidates|
  {
    hide Inv;
    hide Admissible;
    hide Step;
    hide Exec;
    hide AdmissibleRun;
    hide IdentityOk;
    MoveKeeps(a, process, allowed);
    CheckStep(a, process, job, run);
    var b := Step(a, Move(process));
    var loop := LoopFinishes(b, process, job, run, allowed);
    var collect := CollectionEnds(Exec(b, loop), process, job, run, allowed);
    RunAppend(b, loop, collect, allowed);
    schedule := MoveFirst(a, process, loop + collect, allowed);
  }
}
