/**
 * Laws of leases and fencing tokens, what the two repositories can differ in, and which repository calls
 * undo a terminal state.
 */
module OosLaws {
  import opened Wrappers
  import opened OosRun
  import opened OosProtocol
  import opened OosSystem
  import opened OosSafety
  import opened OosTheorems
  import Text

  // ------------------------------------------------------------------ leases and tokens

  function Evaluated(auth: Authorization): Authorization {
    auth.(status := Evaluating, version := auth.version + 1)
  }

  /** What `start_or_resume` grants, and to whom, when a run is already bound. */
  lemma ResumeLaw(s: Repo, run: EvaluationRun, authId: string, runId: Option<string>, owner: string, lease: int,
                  version: string, now: int, newId: string, allowed: Relation)
    requires RepoOk(s, allowed) && authId in s.auths && ActiveRun(s, s.auths[authId]) == Some(run)
    ensures var out := StartOrResume(s, authId, runId, owner, lease, version, now, newId);
            && (out.result.Success? <==>
                  && lease > 0 && s.auths[authId].Available()
                  && (runId.None? || runId.value == run.runId)
                  && run.version == version
                  && (run.leaseExpiresAt <= now || run.owner == owner)
                  && RunRecordOk(run.(owner := owner)))
            && (out.result.Failure? ==> out.repo == s)
            && (out.result.Success? ==>
                  && out.result.value == run.(owner := owner, status := Running, leaseExpiresAt := now + lease,
                                              token := if run.leaseExpiresAt <= now then run.token + 1 else run.token)
                  && out.repo == s.(runs := s.runs[run.runId := out.result.value],
                                    auths := s.auths[authId := Evaluated(s.auths[authId])]))
  {
    assert AuthOk(s, authId);
    assert RunOk(s, run.runId);
  }

  /** The first start binds a new run with token 1 to its authorization. */
  lemma FirstStartLaw(s: Repo, authId: string, runId: Option<string>, owner: string, lease: int, version: string,
                      now: int, newId: string)
    requires authId in s.auths && ActiveRun(s, s.auths[authId]).None?
    ensures var out := StartOrResume(s, authId, runId, owner, lease, version, now, newId);
            var id := EffectiveRunId(runId, None, newId);
            && (out.result.Success? <==>
                  && lease > 0 && s.auths[authId].Available()
                  && !Text.Blank(id) && !Text.Blank(authId) && !Text.Blank(owner) && !Text.Blank(version))
            && (out.result.Success? ==>
                  && out.result.value == EvaluationRun(id, authId, owner, 1, Running, now + lease, version, None, None)
                  && out.repo.auths[authId].activeRunId == Some(id)
                  && ((forall r :: r in s.runs ==> out.repo.runs[r] == s.runs[r])
                      <==> (id !in s.runs || s.runs[id] == out.result.value)))
  {
    var out := StartOrResume(s, authId, runId, owner, lease, version, now, newId);
    var id := EffectiveRunId(runId, None, newId);
    if out.result.Success? && id in s.runs && s.runs[id] != out.result.value {
      assert out.repo.runs[id] != s.runs[id];
    }
  }

  /** Reusing the id of a sealed run for another authorization erases its seal: fresh ids are needed. */
  lemma ReusedRunIdErasesASeal(s: Repo, a: string, id: string, owner: string, lease: int, version: string, now: int,
                               newId: string)
    requires a in s.auths && s.auths[a].activeRunId.None? && s.auths[a].Available()
    requires id in s.runs && s.runs[id].status.Sealed? && s.runs[id].authorizationId != a
    requires lease > 0 && !Text.Blank(id) && !Text.Blank(a) && !Text.Blank(owner) && !Text.Blank(version)
    ensures var out := StartOrResume(s, a, Some(id), owner, lease, version, now, newId);
            out.repo.runs[id].status.Running? && out.repo.runs[id].authorizationId == a
                && out.repo.runs[id].cohortHash.None?
  {
    assert id != "";
  }

  /** From `r` to `t` at clock reading `now`. */
  ghost predicate TokenLaw(r: Repo, t: Repo, now: int, id: string) {
    && id in r.runs && id in t.runs
    && var x, y := r.runs[id], t.runs[id];
    && x.authorizationId == y.authorizationId && x.version == y.version
    && (y.token == x.token || y.token == x.token + 1)
    && (y.token == x.token ==> y.owner == x.owner)
    && (y.token == x.token + 1 ==> x.leaseExpiresAt <= now)
  }

  /** The token of run `i` stays, or grows by one after its lease expired. */
  ghost predicate TokenMove(s: Repo, t: Repo, now: int, i: string) {
    && i in s.runs && i in t.runs
    && (t.runs[i].token == s.runs[i].token
        || (t.runs[i].token == s.runs[i].token + 1 && s.runs[i].leaseExpiresAt <= now))
  }

  lemma StartMovesToken(s: Repo, job: Job, now: int, newId: string, allowed: Relation, i: string)
    requires RepoOk(s, allowed) && i in s.runs
    requires job.authId in s.auths && ActiveRun(s, s.auths[job.authId]).None? ==>
               EffectiveRunId(job.runId, None, newId) !in s.runs
    ensures TokenMove(s, StartOrResume(s, job.authId, job.runId, job.owner, job.lease, job.version, now, newId).repo,
                      now, i)
  {
    if job.authId in s.auths {
      var active := ActiveRun(s, s.auths[job.authId]);
      if active.Some? {
        ResumeLaw(s, active.value, job.authId, job.runId, job.owner, job.lease, job.version, now, newId, allowed);
      }
    }
  }

  lemma CollectKeepsToken(s: Repo, w: Worker, now: int, fault: Fault, i: string)
    requires w.Active? && w.stage.Collect? && i in s.runs
    ensures TokenMove(s, StepCollect(s, w, now, fault).repo, now, i)
  {
  }

  lemma EvaluateKeepsToken(s: Repo, w: Worker, now: int, fault: Fault, i: string)
    requires w.Active? && w.stage.Evaluate? && w.stage.next < |w.job.candidates| && i in s.runs
    ensures TokenMove(s, StepEvaluate(s, w, now, fault).repo, now, i)
  {
  }

  lemma HeardMovesToken(s: Repo, w: Worker, now: int, fault: Fault, newId: string, allowed: Relation, i: string)
    requires RepoOk(s, allowed) && i in s.runs
    requires w.Starting? && w.job.authId in s.auths && ActiveRun(s, s.auths[w.job.authId]).None? ==>
               EffectiveRunId(w.job.runId, None, newId) !in s.runs
    ensures TokenMove(s, StepHeard(s, w, now, fault, newId).repo, now, i)
  {
    hide RepoOk;
    hide StartOrResume;
    hide StepEvaluate;
    hide StepCollect;
    match w
    case Starting(job, _) => StartMovesToken(s, job, now, newId, allowed, i);
    case Active(_, _, _, Evaluate(k), _) =>
      if k < |w.job.candidates| { EvaluateKeepsToken(s, w, now, fault, i); }
    case Active(_, _, _, Collect(_, _), _) => CollectKeepsToken(s, w, now, fault, i);
    case _ =>
  }

  lemma StepMovesToken(s: Repo, w: Worker, now: int, fault: Fault, newId: string, allowed: Relation, i: string)
    requires RepoOk(s, allowed) && i in s.runs
    requires w.Starting? && w.job.authId in s.auths && ActiveRun(s, s.auths[w.job.authId]).None? ==>
               EffectiveRunId(w.job.runId, None, newId) !in s.runs
    ensures TokenMove(s, StepWorker(s, w, now, fault, newId).repo, now, i)
  {
    hide StepHeard;
    hide TokenMove;
    HeardMovesToken(s, w, now, fault, newId, allowed, i);
    HeardMovesToken(s, w, now, NoFault, newId, allowed, i);
  }

  lemma AdvanceRely(s: System, process: string, fault: Fault, newId: string, allowed: Relation, id: string)
    requires Inv(s, allowed) && process in s.workers && id in s.repo.runs
    requires NewRunIdIsFresh(s, process, newId) && SealIsHeard(s, process, fault)
    ensures var e := StepWorker(s.repo, s.workers[process], s.clock, fault, newId);
            id in e.repo.runs && RunRely(s.repo.runs[id], e.repo.runs[id], CallerOf(s.workers[process].job))
  {
    hide StepWorker;
    AdvanceGood(s, process, fault, newId, allowed);
  }

  lemma OnlyWorkersTouchRuns(s: System, a: Action)
    ensures var r' := Step(s, a).repo;
            if a.Advance? && a.process in s.workers
            then r' == StepWorker(s.repo, s.workers[a.process], s.clock, a.fault, a.newId).repo
            else r'.runs == s.repo.runs
  {
    hide StepWorker;
  }

  lemma AdvanceTokenLaw(s: System, process: string, fault: Fault, newId: string, allowed: Relation, id: string)
    requires Inv(s, allowed) && process in s.workers && id in s.repo.runs
    requires NewRunIdIsFresh(s, process, newId) && SealIsHeard(s, process, fault)
    ensures TokenLaw(s.repo, StepWorker(s.repo, s.workers[process], s.clock, fault, newId).repo, s.clock, id)
  {
    StepMovesToken(s.repo, s.workers[process], s.clock, fault, newId, allowed, id);
    AdvanceRely(s, process, fault, newId, allowed, id);
    hide StepWorker;
    hide Inv;
  }

  /**
   * Fencing. In one admissible step a run keeps its authorization and version, its token stays or grows
   * by one, and it grows only after the lease has expired; without growth the owner stays.
   */
  lemma TakeoverNeedsAnExpiredLease(s: System, a: Action, allowed: Relation, id: string)
    requires Inv(s, allowed) && Admissible(s, a, allowed) && id in s.repo.runs
    ensures TokenLaw(s.repo, Step(s, a).repo, s.clock, id)
  {
    OnlyWorkersTouchRuns(s, a);
    hide Step;
    if a.Advance? && a.process in s.workers {
      AdvanceTokenLaw(s, a.process, a.fault, a.newId, allowed, id);
    }
  }

  /** What never changes once it is written, and tokens. */
  ghost predicate Persists(r: Repo, t: Repo) {
    && (forall a :: a in r.auths ==>
          && a in t.auths && SameIdentity(r.auths[a], t.auths[a])
          && (r.auths[a].activeRunId.Some? ==> t.auths[a].activeRunId == r.auths[a].activeRunId))
    && (forall id :: id in r.runs ==>
          && id in t.runs && r.runs[id].token <= t.runs[id].token
          && r.runs[id].authorizationId == t.runs[id].authorizationId)
    && (forall k :: k in r.checkpoints ==> k in t.checkpoints && t.checkpoints[k] == r.checkpoints[k])
  }

  lemma RelyPersists(r: Repo, t: Repo, mover: Caller, allowed: Relation)
    requires RepoOk(r, allowed) && RepoOk(t, allowed) && Rely(r, t, mover)
    ensures Persists(r, t)
  {
    forall a | a in r.auths && r.auths[a].activeRunId.Some?
      ensures a in t.auths && t.auths[a].activeRunId == r.auths[a].activeRunId
    {
      var id := r.auths[a].activeRunId.value;
      assert AuthOk(r, a);
      assert RunRely(r.runs[id], t.runs[id], mover) && RunOk(t, id);
    }
  }

  lemma StepPersists(s: System, a: Action, allowed: Relation)
    requires Inv(s, allowed) && Admissible(s, a, allowed)
    ensures Persists(s.repo, Step(s, a).repo)
  {
    match a
    case Authorize(request) =>
      var auth := NewAuthorization(request);
      if auth.Success? {
        AuthorizeGuarantee(s.repo, auth.value, NOBODY, allowed);
        RelyPersists(s.repo, Step(s, a).repo, NOBODY, allowed);
      }
    case Invalidate(authId) =>
      InvalidateGuarantee(s.repo, authId, NOBODY, allowed);
      RelyPersists(s.repo, Step(s, a).repo, NOBODY, allowed);
    case Advance(process, fault, newId) =>
      if process in s.workers {
        AdvanceKeepsInv(s, process, fault, newId, allowed);
        RelyPersists(s.repo, Step(s, a).repo, CallerOf(s.workers[process].job), allowed);
      }
    case _ =>
  }

  /**
   * Over every admissible schedule: a bound run id is never rebound, tokens never decrease, and no
   * checkpoint is ever overwritten or removed.
   */
  lemma {:induction false} RunPersists(s: System, schedule: seq<Action>, allowed: Relation)
    requires Inv(s, allowed) && AdmissibleRun(s, schedule, allowed)
    ensures Persists(s.repo, Exec(s, schedule).repo)
    decreases |schedule|
  {
    if schedule != [] {
      StepPersists(s, schedule[0], allowed);
      StepKeepsInv(s, schedule[0], allowed);
      RunPersists(Step(s, schedule[0]), schedule[1..], allowed);
    }
  }

  /**
   * The repository's own write-once check never fires for a worker: with a current token its key is
   * still unwritten, so `put_checkpoint` stores the value or reports a lease error.
   */
  lemma CheckpointsNeverConflict(s: System, process: string, allowed: Relation)
    requires Inv(s, allowed) && process in s.workers
    requires s.workers[process].Active? && s.workers[process].stage.Evaluate?
    ensures var w := s.workers[process];
            var c := w.job.candidates[w.stage.next];
            var cp := CompletedCheckpoint(w.run.runId, c.id, InputHash(c), w.job.evaluator(c));
            var out := PutCheckpoint(s.repo, cp, w.job.owner, w.run.token, s.clock);
            out.result == Success(cp) || out.result == Failure(LeaseError)
  {
    var w := s.workers[process];
    assert WorkerOk(s.repo, w);
    PutWrites(s.repo, w.job, w.run, NextCheckpoint(w), s.clock);
  }

  // ------------------------------------------------------------------ two repositories, one protocol

  /**
   * The calls on which the two repositories differ never happen to a worker: a run it still owns is not
   * terminal, a sealing worker's hash is present and carries the id of its run, and neither the artifact
   * table nor the unique index on the artifact's run id knows that run yet.
   */
  lemma DivergencesAreUnreachable(s: System, process: string, index: map<string, Digest>, allowed: Relation)
    requires Inv(s, allowed) && process in s.workers && s.workers[process].Active?
    requires IndexOk(index, s.repo.artifacts)
    ensures var w := s.workers[process];
            var owned := Owned(s.repo, w.run.runId, w.job.owner, w.run.token, s.clock, false);
            owned.Success? ==>
              && !owned.value.Terminal() && w.run.runId !in index
              && forall d :: d in s.repo.artifacts ==> d.CohortDigest? && d.runId != w.run.runId
    ensures var w := s.workers[process];
            w.stage.Collect? && w.stage.next >= |w.job.candidates| ==>
              var hash := CanonicalCohortHash(w.stage.rows, w.auth, w.run);
              hash.Success? && hash.value.CohortDigest? && hash.value.runId == w.run.runId
  {
    var w := s.workers[process];
    assert WorkerOk(s.repo, w);
    forall d | d in s.repo.artifacts ensures ArtifactOk(s.repo, d) {
    }
    if w.stage.Collect? && w.stage.next >= |w.job.candidates| {
      var _ := SealingHash(w.job, w.auth, w.run, w.results, w.stage.rows);
    }
  }

  // ------------------------------------------------------------------ limits

  /** On the repository alone a sealed run reopens exactly for the holder of the sealing token. */
  lemma InterruptReopensASealIff(s: Repo, id: string, owner: string, token: int, now: int, terminal: bool,
                                 allowed: Relation)
    requires RepoOk(s, allowed) && id in s.runs && s.runs[id].status.Sealed?
    ensures var t := Interrupt(s, id, owner, token, now, terminal).repo;
            && (t != s <==> s.runs[id].owner == owner && s.runs[id].token == token)
            && (t != s ==> !t.runs[id].status.Sealed? && !t.auths[s.runs[id].authorizationId].status.Consumed?)
  {
    assert RunOk(s, id);
  }

  lemma RenewReopensASealIff(s: Repo, id: string, owner: string, token: int, lease: int, now: int, allowed: Relation)
    requires RepoOk(s, allowed) && id in s.runs && s.runs[id].status.Sealed?
    ensures var t := Renew(s, id, owner, token, lease, now).repo;
            && (t != s <==>
                  && lease > 0 && s.runs[id].owner == owner && s.runs[id].token == token
                  && now < s.runs[id].leaseExpiresAt)
            && (t != s ==> t.runs[id].status.Running?)
  {
    assert RunOk(s, id);
  }

  /** Two live calls of one owner id on one authorization share the token; `OosLimits` shows where that leads. */
  lemma SameOwnerSharesTheToken(s: Repo, run: EvaluationRun, authId: string, lease: int, now: int, newId: string,
                                allowed: Relation)
    requires RepoOk(s, allowed) && authId in s.auths && ActiveRun(s, s.auths[authId]) == Some(run)
    requires s.auths[authId].Available() && lease > 0 && now < run.leaseExpiresAt && RunRecordOk(run)
    ensures var out := StartOrResume(s, authId, None, run.owner, lease, run.version, now, newId);
            out.result.Success? && out.result.value.token == run.token && out.result.value.runId == run.runId
  {
    ResumeLaw(s, run, authId, None, run.owner, lease, run.version, now, newId, allowed);
  }
}
