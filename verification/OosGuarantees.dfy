/**
 * What the parties of the Final-OOS protocol can rely on: what a sealed cohort was authorized for, which
 * exceptions end a run for good, and what a worker leaves that has lost its run.
 */
module OosGuarantees {
  import opened Wrappers
  import opened Sequences
  import opened OosRun
  import opened OosProtocol
  import opened OosSystem
  import opened OosSafety
  import opened OosTheorems
  import opened OosConfluence
  import Text

  // ------------------------------------------------------------------ identities

  /** A rearrangement of well-formed ids is well-formed. */
  lemma RearrangedIds(a: seq<string>, b: seq<string>)
    requires WellFormedIds(a) && multiset(a) == multiset(b)
    ensures WellFormedIds(b)
  {
    SameLength(a, b);
    DistinctRearranged(a, b);
    forall i | 0 <= i < |b| ensures !Text.Blank(b[i]) {
      assert b[i] in multiset(a);
    }
  }

  /** The dataset, the market and the content that a candidate names, if it names them. */
  ghost predicate MadeFor(c: Candidate, datasetRefHash: string, marketSnapshotId: string,
                          contentRefHash: Option<string>)
  {
    && c.datasetRef in {None, Some(datasetRefHash)} && c.marketSnapshot in {None, Some(marketSnapshotId)}
    && c.contentRef in {None, Some(contentRefHash)}
  }

  /**
   * The identity checks pass exactly when the candidates are the authorized ones, in any order, and none of them
   * was made for another dataset, market or content.
   */
  lemma IdentityOkIff(job: Job, auth: Authorization, ids: seq<string>)
    requires CanonicalCandidateSetHash(ids) == Success(auth.candidateSetHash)
    ensures IdentityOk(job, auth) <==>
              && multiset(Ids(job.candidates)) == multiset(ids)
              && forall i :: 0 <= i < |job.candidates| ==>
                   MadeFor(job.candidates[i], auth.datasetRefHash, auth.marketSnapshotId, auth.contentRefHash)
  {
    var own := Ids(job.candidates);
    if multiset(own) == multiset(ids) {
      RearrangedIds(ids, own);
      CandidateSetHashIdentifiesTheSet(own, ids);
    } else if WellFormedIds(own) {
      CandidateSetHashIdentifiesTheSet(own, ids);
    }
    hide WellFormedIds;
    hide SortIds;
    forall i | 0 <= i < |job.candidates|
      ensures CandidateMatches(job.candidates[i], auth)
         <==> MadeFor(job.candidates[i], auth.datasetRefHash, auth.marketSnapshotId, auth.contentRefHash)
    {
    }
  }

  /** A worker whose candidates are not the authorized ones fails for good before it looks at a checkpoint. */
  lemma UnauthorizedFails(r: Repo, w: Worker, now: int, newId: string, ids: seq<string>)
    requires w.Active? && w.stage.Check? && CanonicalCandidateSetHash(ids) == Success(w.auth.candidateSetHash)
    requires || multiset(Ids(w.job.candidates)) != multiset(ids)
             || exists i :: 0 <= i < |w.job.candidates|
                            && !MadeFor(w.job.candidates[i], w.auth.datasetRefHash, w.auth.marketSnapshotId,
                                        w.auth.contentRefHash)
    ensures StepWorker(r, w, now, NoFault, newId) == Effect(r, Failing(w.job, w.run, true), None)
  {
    IdentityOkIff(w.job, w.auth, ids);
  }

  /** The second authorization of an experiment succeeds exactly when it asks for the same. */
  lemma AuthorizeTwice(r: Repo, p: Request, q: Request)
    requires NewAuthorization(p).Success? && NewAuthorization(q).Success? && p.experimentId == q.experimentId
    requires NewAuthorization(p).value.authorizationId !in r.auths
    ensures var s := SaveAuthorization(r, NewAuthorization(p).value).repo;
            var out := SaveAuthorization(s, NewAuthorization(q).value);
            out.repo == s && (if p == q then out.result.Success? else out.result == Failure(IdentityError))
  {
  }

  /** Requests for two experiments never share an authorization. */
  lemma ExperimentsAreApart(p: Request, q: Request)
    requires NewAuthorization(p).Success? && NewAuthorization(q).Success? && p.experimentId != q.experimentId
    ensures NewAuthorization(p).value.authorizationId != NewAuthorization(q).value.authorizationId
  {
    var a, b := "oosa-" + p.experimentId, "oosa-" + q.experimentId;
    assert a[5..] == p.experimentId && b[5..] == q.experimentId;
  }

  // ------------------------------------------------------------------ a sealed cohort

  /** The stored row of candidate `c` with this result. */
  ghost predicate StoredRow(row: Row, c: Candidate, result: Payload) {
    row.candidateId == c.id && row.result == Some(result) && row.resultHash == Some(ResultDigest(result))
  }

  /**
   * A sealed cohort is what was authorized, and stored as such: its authorization is consumed, its candidates are
   * the authorized ones, and the stored artifact names the authorization with its dataset, market, content and
   * evaluator version and has one row for each candidate, in the caller's order.
   */
  ghost predicate Authentic(r: Repo, e: Seal) {
    && e.job.authId in r.auths && e.hash in r.artifacts
    && var auth, artifact := r.auths[e.job.authId], r.artifacts[e.hash];
    && auth.status.Consumed? && auth.activeRunId == Some(e.run.runId)
    && (forall ids :: CanonicalCandidateSetHash(ids) == Success(auth.candidateSetHash) ==>
          multiset(Ids(e.job.candidates)) == multiset(ids))
    && (forall i :: 0 <= i < |e.job.candidates| ==>
          MadeFor(e.job.candidates[i], auth.datasetRefHash, auth.marketSnapshotId, auth.contentRefHash))
    && artifact.authorizationId == e.job.authId && artifact.version == e.job.version
    && artifact.datasetRefHash == auth.datasetRefHash && artifact.marketSnapshotId == auth.marketSnapshotId
    && artifact.contentRefHash == auth.contentRefHash
    && |artifact.rows| == |e.results| == |e.job.candidates|
    && forall i :: 0 <= i < |artifact.rows| ==> StoredRow(artifact.rows[i], e.job.candidates[i], e.results[i])
  }

  lemma SealIsAuthentic(r: Repo, e: Seal, allowed: Relation)
    requires RepoOk(r, allowed) && SealOk(r, e)
    ensures Authentic(r, e)
  {
    var auth := r.auths[e.job.authId];
    assert RunOk(r, e.run.runId);
    hide CheckpointOk;
    hide ArtifactOk;
    hide AuthOk;
    hide RepoOk;
    hide ResultsOk;
    hide CanonicalCohortHash;
    SetIs(e.job, auth);
    hide CanonicalCandidateSetHash;
    hide IdentityOk;
  }

  lemma SetIs(job: Job, auth: Authorization)
    requires IdentityOk(job, auth)
    ensures forall ids :: CanonicalCandidateSetHash(ids) == Success(auth.candidateSetHash) ==>
              multiset(Ids(job.candidates)) == multiset(ids)
    ensures forall i :: 0 <= i < |job.candidates| ==>
              MadeFor(job.candidates[i], auth.datasetRefHash, auth.marketSnapshotId, auth.contentRefHash)
  {
    forall ids | CanonicalCandidateSetHash(ids) == Success(auth.candidateSetHash)
      ensures multiset(Ids(job.candidates)) == multiset(ids)
    {
      IdentityOkIff(job, auth, ids);
    }
    IdentityOkIff(job, auth, Ids(job.candidates));
  }

  /** Over every admissible schedule, every sealed cohort is authentic. */
  lemma SealedCohortsAreAuthentic(schedule: seq<Action>)
    requires AdmissibleRun(Init, schedule, AnyResult)
    ensures var s := Exec(Init, schedule);
            forall i :: 0 <= i < |s.seals| ==> Authentic(s.repo, s.seals[i])
  {
    hide Authentic;
    hide RepoOk;
    hide SealOk;
    hide Exec;
    hide AdmissibleRun;
    InitInv(AnyResult);
    RunKeepsInv(Init, schedule, AnyResult);
    var s := Exec(Init, schedule);
    forall i | 0 <= i < |s.seals| ensures Authentic(s.repo, s.seals[i]) {
      assert SealOk(s.repo, s.seals[i]);
      SealIsAuthentic(s.repo, s.seals[i], AnyResult);
    }
  }

  // ------------------------------------------------------------------ exceptions

  /** Does the worker make a call in its next step that can raise? */
  ghost predicate Working(w: Worker) {
    && w.Active? && (w.stage.Evaluate? ==> w.stage.next < |w.job.candidates|)
    && (w.stage.Check? ==> IdentityOk(w.job, w.auth))
  }

  /**
   * An exception leaves the repository alone. A lease error passes through, but for one that the evaluator raises;
   * identity errors end the run for good; every other exception interrupts it.
   */
  lemma FaultLaw(r: Repo, w: Worker, now: int, fault: Fault, newId: string)
    requires Working(w) && fault in {LeaseFault, Permanent, Transient}
    ensures StepWorker(r, w, now, fault, newId)
         == Effect(r, if fault.LeaseFault? && !w.stage.Evaluate? then Finished(w.job, Failure(LeaseError))
                      else Failing(w.job, w.run, fault.Permanent?), None)
  {
    hide IdentityOk;
  }

  /** Before it holds a run a worker passes every exception on, and changes nothing. */
  lemma EarlyFaultLaw(r: Repo, w: Worker, now: int, fault: Fault, newId: string)
    requires (w.Waiting? || w.Starting?) && fault in {LeaseFault, Permanent, Transient}
    ensures var e := StepWorker(r, w, now, fault, newId);
            && e.repo == r && e.seal.None? && e.worker.Finished? && e.worker.outcome.Failure?
            && (fault.LeaseFault? <==> e.worker.outcome.error == LeaseError)
            && (fault.Permanent? <==> e.worker.outcome.error == IdentityError)
  {
  }

  /** The run and its authorization after an interrupt. */
  ghost predicate Interrupted(r: Repo, w: Worker)
    requires w.Failing?
  {
    && w.run.runId in r.runs && w.job.authId in r.auths
    && r.runs[w.run.runId].authorizationId == w.job.authId
    && r.auths[w.job.authId].activeRunId == Some(w.run.runId)
    && if w.terminal then r.runs[w.run.runId].status.FailedTerminal? && r.auths[w.job.authId].status.Invalidated?
       else r.runs[w.run.runId].status.Interrupted? && r.auths[w.job.authId].status.EvaluatingInterrupted?
  }

  /**
   * The interrupt of a failing worker: if nobody has taken its run over, it ends for good or can be resumed, as
   * the exception was; otherwise the worker changes nothing. The caller is told which.
   */
  lemma InterruptLaw(r: Repo, w: Worker, now: int, newId: string, allowed: Relation)
    requires RepoOk(r, allowed) && w.Failing? && HoldsRun(r, w.job, w.run)
    ensures var e := StepWorker(r, w, now, NoFault, newId);
            if TokenCurrent(r, w.run)
            then Interrupted(e.repo, w)
                 && e.worker == Finished(w.job, Failure(if w.terminal then IdentityError else RuntimeError))
            else e.repo == r && e.worker == Finished(w.job, Failure(LeaseError))
  {
    hide CheckpointOk;
    hide ArtifactOk;
    assert RunOk(r, w.run.runId);
  }

  /** An interrupted run is resumed by the next start of its evaluator version, by anybody once its lease is over. */
  lemma InterruptedIsResumed(r: Repo, w: Worker, job: Job, now: int, newId: string)
    requires w.Failing? && !w.terminal && Interrupted(r, w) && job.authId == w.job.authId && job.lease > 0
    requires var run := r.runs[w.run.runId];
             && run.runId == w.run.runId && RunRecordOk(run.(owner := job.owner)) && run.version == job.version
             && (run.leaseExpiresAt <= now || run.owner == job.owner)
             && job.runId in {None, Some(run.runId)}
    ensures var out := StartOrResume(r, job.authId, job.runId, job.owner, job.lease, job.version, now, newId);
            && out.result.Success? && out.result.value.runId == w.run.runId && out.result.value.status.Running?
            && out.repo.checkpoints == r.checkpoints
  {
  }

  /** A worker that has lost its run stores nothing, and tells its caller so. */
  lemma LostRunStoresNothing(r: Repo, w: Worker, now: int, newId: string)
    requires w.Active? && !TokenCurrent(r, w.run)
    requires || (w.stage.Evaluate? && w.stage.next < |w.job.candidates|)
             || (w.stage.Collect? && w.stage.next >= |w.job.candidates|
                 && CanonicalCohortHash(w.stage.rows, w.auth, w.run).Success?)
    ensures StepWorker(r, w, now, NoFault, newId) == Effect(r, Finished(w.job, Failure(LeaseError)), None)
  {
    hide CanonicalCohortHash;
  }
}
