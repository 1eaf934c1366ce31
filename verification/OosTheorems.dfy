/** The main results about the Final-OOS protocol, for every admissible schedule. */
module OosTheorems {
  import opened Wrappers
  import opened OosRun
  import opened OosProtocol
  import opened OosSystem
  import opened OosSafety

  // ------------------------------------------------------------------ other workers and old seals are stable

  lemma ResultsStable(r: Repo, r': Repo, job: Job, runId: string, results: seq<Payload>)
    requires forall k :: k in r.checkpoints ==> k in r'.checkpoints && r'.checkpoints[k] == r.checkpoints[k]
    requires ResultsOk(r, job, runId, results)
    ensures ResultsOk(r', job, runId, results)
  {
    forall i | 0 <= i < |results| ensures Checkpointed(r', job, runId, i, results[i]) {
      assert Checkpointed(r, job, runId, i, results[i]);
    }
  }

  lemma HoldsStable(r: Repo, r': Repo, mover: Caller, job: Job, run: EvaluationRun)
    requires Rely(r, r', mover) && mover != CallerOf(job) && HoldsRun(r, job, run)
    ensures HoldsRun(r', job, run)
    ensures TokenCurrent(r', run) ==> TokenCurrent(r, run) && r.runs[run.runId].owner == job.owner
  {
    assert RunRely(r.runs[run.runId], r'.runs[run.runId], mover);
  }

  lemma WorkerStable(r: Repo, r': Repo, mover: Caller, w: Worker)
    requires Rely(r, r', mover) && mover != CallerOf(w.job) && WorkerOk(r, w)
    ensures WorkerOk(r', w)
  {
    match w
    case Waiting(_) =>
    case Starting(_, _) =>
    case Active(job, auth, run, stage, results) =>
      HoldsStable(r, r', mover, job, run);
      ResultsStable(r, r', job, run.runId, results);
    case Failing(job, run, _) =>
      HoldsStable(r, r', mover, job, run);
    case Finished(_, _) =>
  }

  lemma SealStable(r: Repo, r': Repo, mover: Caller, allowed: Relation, e: Seal)
    requires RepoOk(r, allowed) && Guarantee(r, r', mover, allowed) && SealOk(r, e)
    ensures SealOk(r', e)
  {
    assert RunOk(r, e.run.runId);
    assert FrozenRun(r, r', e.run.runId);
    ResultsStable(r, r', e.job, e.run.runId, e.results);
  }

  lemma AllSealsStable(r: Repo, r': Repo, mover: Caller, allowed: Relation, seals: seq<Seal>)
    requires RepoOk(r, allowed) && Guarantee(r, r', mover, allowed) && AllSealsOk(r, seals)
    ensures AllSealsOk(r', seals)
  {
    forall i | 0 <= i < |seals| ensures SealOk(r', seals[i]) {
      SealStable(r, r', mover, allowed, seals[i]);
    }
  }

  lemma SealsStable(r: Repo, r': Repo, mover: Caller, allowed: Relation, seals: seq<Seal>)
    requires RepoOk(r, allowed) && Guarantee(r, r', mover, allowed) && SealsOk(r, seals) && NoNewSeal(r, r')
    ensures SealsOk(r', seals)
  {
    AllSealsStable(r, r', mover, allowed, seals);
  }

  // ------------------------------------------------------------------ a worker's own steps

  /** What a worker step establishes: the guarantee, the mover's own invariant, and a justified seal. */
  ghost predicate GoodEffect(r: Repo, w: Worker, e: Effect, allowed: Relation) {
    && Guarantee(r, e.repo, CallerOf(w.job), allowed)
    && WorkerOk(e.repo, e.worker)
    && e.worker.job == w.job
    && (if e.seal.None? then NoNewSeal(r, e.repo) else NewSeal(r, e.repo, e.seal.value))
  }

  /** The step sealed the run of `e`, which was not terminal before, and no other run. */
  ghost predicate NewSeal(r: Repo, r': Repo, e: Seal) {
    && SealOk(r', e)
    && e.run.runId in r.runs && !r.runs[e.run.runId].Terminal()
    && forall id :: id in r'.runs && r'.runs[id].status.Sealed? && id != e.run.runId ==>
         id in r.runs && r.runs[id].status.Sealed?
  }

  lemma GoodWithoutRepoChange(r: Repo, w: Worker, e: Effect, allowed: Relation)
    requires RepoOk(r, allowed) && e.repo == r && e.worker.job == w.job && e.seal.None?
    requires WorkerOk(r, e.worker)
    ensures GoodEffect(r, w, e, allowed)
  {
    Unchanged(r, CallerOf(w.job), allowed);
  }

  lemma KnowledgePersists(r: Repo, r': Repo, mover: Caller, job: Job, auth: Authorization, allowed: Relation)
    requires Guarantee(r, r', mover, allowed) && KnowsAuth(r, job, auth)
    ensures KnowsAuth(r', job, auth)
  {
  }

  lemma StartingGood(r: Repo, w: Worker, now: int, newId: string, allowed: Relation)
    requires RepoOk(r, allowed) && w.Starting? && WorkerOk(r, w)
    requires w.job.authId in r.auths && ActiveRun(r, r.auths[w.job.authId]).None? ==>
               EffectiveRunId(w.job.runId, None, newId) !in r.runs
    ensures GoodEffect(r, w, StepStarting(r, w, now, newId), allowed)
  {
    hide RepoOk;
    hide Guarantee;
    hide StartOrResume;
    hide HoldsRun;
    StartGuarantee(r, w.job, now, newId, allowed);
    var out := StartOrResume(r, w.job.authId, w.job.runId, w.job.owner, w.job.lease, w.job.version, now, newId);
    if out.result.Success? {
      StartHolds(r, w.job, now, newId, allowed);
      KnowledgePersists(r, out.repo, CallerOf(w.job), w.job, w.auth, allowed);
    } else {
      StartFailureIsHarmless(r, w.job, now, newId);
    }
  }

  lemma IdentityTransfers(job: Job, a: Authorization, b: Authorization)
    requires IdentityOk(job, a) && SameIdentity(a, b)
    ensures IdentityOk(job, b)
  {
    forall i | 0 <= i < |job.candidates| ensures CandidateMatches(job.candidates[i], b) {
      assert CandidateMatches(job.candidates[i], a);
    }
  }

  /** A stored checkpoint with the candidate's input hash extends the results by its own result. */
  lemma LookExtends(r: Repo, job: Job, runId: string, results: seq<Payload>, allowed: Relation)
    requires |results| < |job.candidates| && ResultsOk(r, job, runId, results)
    requires (runId, job.candidates[|results|].id) in r.checkpoints
    requires CheckpointOk(r, (runId, job.candidates[|results|].id), allowed)
    requires r.checkpoints[(runId, job.candidates[|results|].id)].inputHash == InputHash(job.candidates[|results|])
    ensures var cp := r.checkpoints[(runId, job.candidates[|results|].id)];
            cp.result.Some? && ResultsOk(r, job, runId, results + [cp.result.value])
  {
    var i := |results|;
    var cp := r.checkpoints[(runId, job.candidates[i].id)];
    var longer := results + [cp.result.value];
    forall j | 0 <= j < |longer| ensures Checkpointed(r, job, runId, j, longer[j]) {
      assert j < i ==> Checkpointed(r, job, runId, j, results[j]);
    }
  }

  lemma LookGood(r: Repo, w: Worker, fault: Fault, allowed: Relation)
    requires RepoOk(r, allowed) && w.Active? && w.stage.Look? && WorkerOk(r, w)
    ensures GoodEffect(r, w, StepLook(r, w, fault), allowed)
  {
    hide RunOk;
    hide AuthOk;
    hide ArtifactOk;
    hide HoldsRun;
    var e, i := StepLook(r, w, fault), w.stage.next;
    assert WorkerOk(r, e.worker) by {
      if fault.NoFault? && i < |w.job.candidates| {
        var key := (w.run.runId, w.job.candidates[i].id);
        if key in r.checkpoints && r.checkpoints[key].inputHash == InputHash(w.job.candidates[i]) {
          assert CheckpointOk(r, key, allowed);
          LookExtends(r, w.job, w.run.runId, w.results, allowed);
        }
      } else if fault.NoFault? {
        IdentityTransfers(w.job, w.auth, r.auths[w.job.authId]);
      }
    }
    GoodWithoutRepoChange(r, w, e, allowed);
  }

  /** The evaluator's value is stored write-once and extends the results. */
  lemma EvaluateExtends(r: Repo, r': Repo, job: Job, runId: string, results: seq<Payload>)
    requires |results| < |job.candidates| && ResultsOk(r, job, runId, results)
    requires (runId, job.candidates[|results|].id) !in r.checkpoints
    requires var c := job.candidates[|results|];
             r'.checkpoints
             == r.checkpoints[(runId, c.id) := CompletedCheckpoint(runId, c.id, InputHash(c), job.evaluator(c))]
    ensures ResultsOk(r', job, runId, results + [job.evaluator(job.candidates[|results|])])
  {
    var longer := results + [job.evaluator(job.candidates[|results|])];
    forall j | 0 <= j < |longer| ensures Checkpointed(r', job, runId, j, longer[j]) {
      assert j < |results| ==> Checkpointed(r, job, runId, j, results[j]);
    }
  }

  lemma EvaluateGood(r: Repo, w: Worker, now: int, fault: Fault, allowed: Relation)
    requires RepoOk(r, allowed) && w.Active? && w.stage.Evaluate? && WorkerOk(r, w) && Allowed(w.job, allowed)
    ensures GoodEffect(r, w, StepEvaluate(r, w, now, fault), allowed)
  {
    var e := StepEvaluate(r, w, now, fault);
    if !fault.NoFault? {
      GoodWithoutRepoChange(r, w, e, allowed);
    } else {
      var c := w.job.candidates[w.stage.next];
      var cp := CompletedCheckpoint(w.run.runId, c.id, InputHash(c), w.job.evaluator(c));
      PutWrites(r, w.job, w.run, cp, now);
      if PutCheckpoint(r, cp, w.job.owner, w.run.token, now).result.Failure? {
        GoodWithoutRepoChange(r, w, e, allowed);
      } else {
        EvaluateStored(r, w, now, allowed);
      }
    }
  }

  lemma EvaluateStored(r: Repo, w: Worker, now: int, allowed: Relation)
    requires RepoOk(r, allowed) && w.Active? && w.stage.Evaluate? && WorkerOk(r, w) && Allowed(w.job, allowed)
    requires PutCheckpoint(r, NextCheckpoint(w), w.job.owner, w.run.token, now).result.Success?
    ensures GoodEffect(r, w, StepEvaluate(r, w, now, NoFault), allowed)
  {
    hide RunOk;
    hide AuthOk;
    hide ArtifactOk;
    var e := StepEvaluate(r, w, now, NoFault);
    var c := w.job.candidates[w.stage.next];
    var cp := CompletedCheckpoint(w.run.runId, c.id, InputHash(c), w.job.evaluator(c));
    PutWrites(r, w.job, w.run, cp, now);
    assert allowed(w.job.authId, InputHash(c), w.job.evaluator(c));
    assert HoldsRun(r, w.job, w.run);
    assert CheckpointOk(e.repo, (w.run.runId, c.id), allowed);
    PutGuarantee(r, CallerOf(w.job), (w.run.runId, c.id), cp, allowed);
    EvaluateExtends(r, e.repo, w.job, w.run.runId, w.results);
    assert WorkerOk(e.repo, e.worker);
  }

  lemma RowsDistinct(job: Job, auth: Authorization, results: seq<Payload>, rows: seq<Row>)
    requires IdentityOk(job, auth) && RowsMatch(job, results, rows)
    ensures DistinctRows(rows)
  {
    forall i, j | 0 <= i < j < |rows| ensures rows[i].candidateId != rows[j].candidateId {
      assert Ids(job.candidates)[i] != Ids(job.candidates)[j];
    }
  }

  lemma SealingJustified(r: Repo, r': Repo, job: Job, auth: Authorization, run: EvaluationRun, rows: seq<Row>,
                         results: seq<Payload>, hash: Digest, now: int)
    requires KnowsAuth(r, job, auth) && HoldsRun(r, job, run) && IdentityOk(job, auth)
    requires ResultsOk(r, job, run.runId, results) && RowsMatch(job, results, rows) && |rows| == |job.candidates|
    requires CanonicalCohortHash(rows, auth, run) == Success(hash)
    requires SealedFrom(r, r', run.runId, hash, ArtifactOf(job.authId, auth, run, rows), now)
    ensures SealOk(r', Seal(job, run, auth.IdentityHash(), hash, rows, results))
  {
    IdentityTransfers(job, auth, r'.auths[job.authId]);
    ResultsStable(r, r', job, run.runId, results);
    CohortHashReads(rows, auth, run, r'.auths[job.authId], r'.runs[run.runId]);
  }

  /** The last step of a complete row list is one `seal` call with the cohort's hash. */
  lemma SealingCall(r: Repo, w: Worker, now: int, hash: Digest)
    requires w.Active? && w.stage.Collect? && w.stage.next >= |w.job.candidates|
    requires CanonicalCohortHash(w.stage.rows, w.auth, w.run) == Success(hash)
    ensures var e := StepCollect(r, w, now, NoFault);
            var out := OosProtocol.Seal(r, w.run.runId, w.job.owner, w.run.token, Some(hash),
                                        ArtifactOf(w.job.authId, w.auth, w.run, w.stage.rows), now);
            var seal := Seal(w.job, w.run, w.auth.IdentityHash(), hash, w.stage.rows, w.results);
            && (out.result == Failure(LeaseError) ==> e == Effect(out.repo, Finished(w.job, Failure(LeaseError)), None))
            && (out.result.Success? ==> e == Effect(out.repo, Finished(w.job, Success(seal)), Some(seal)))
  {
  }

  lemma SealingHash(job: Job, auth: Authorization, run: EvaluationRun, results: seq<Payload>, rows: seq<Row>)
    returns (hash: Digest)
    requires IdentityOk(job, auth) && RowsMatch(job, results, rows)
    ensures CanonicalCohortHash(rows, auth, run) == Success(hash)
    ensures hash.CohortDigest? && hash.runId == run.runId
  {
    RowsDistinct(job, auth, results, rows);
    CohortHashIdentifiesRows(rows, rows, auth, run);
    CohortHashReads(rows, auth, run, auth, run);
    hash := CanonicalCohortHash(rows, auth, run).value;
  }

  lemma SealIsNew(r: Repo, r': Repo, e: Seal, hash: Digest, artifact: Artifact, now: int)
    requires SealedFrom(r, r', e.run.runId, hash, artifact, now) && SealOk(r', e)
    ensures NewSeal(r, r', e)
  {
  }

  lemma SealedGood(r: Repo, r': Repo, w: Worker, hash: Digest, now: int, allowed: Relation, seal: Seal)
    requires RepoOk(r, allowed) && w.Active? && w.stage.Collect?
    requires w.run.runId in r.runs && RunCaller(r.runs[w.run.runId]) == CallerOf(w.job)
    requires hash.CohortDigest? && hash.runId == w.run.runId && seal.run == w.run
    requires SealedFrom(r, r', w.run.runId, hash, ArtifactOf(w.job.authId, w.auth, w.run, w.stage.rows), now)
    requires SealOk(r', seal)
    ensures GoodEffect(r, w, Effect(r', Finished(w.job, Success(seal)), Some(seal)), allowed)
  {
    hide RepoOk;
    hide Guarantee;
    hide SealedFrom;
    hide SealOk;
    hide NewSeal;
    var artifact := ArtifactOf(w.job.authId, w.auth, w.run, w.stage.rows);
    SealGuarantee(r, r', CallerOf(w.job), w.run.runId, hash, artifact, now, allowed);
    SealIsNew(r, r', seal, hash, artifact, now);
  }

  lemma SealingGood(r: Repo, w: Worker, now: int, allowed: Relation)
    requires RepoOk(r, allowed) && w.Active? && w.stage.Collect? && WorkerOk(r, w)
    requires w.stage.next >= |w.job.candidates|
    ensures GoodEffect(r, w, StepCollect(r, w, now, NoFault), allowed)
  {
    var hash := SealingHash(w.job, w.auth, w.run, w.results, w.stage.rows);
    var artifact := ArtifactOf(w.job.authId, w.auth, w.run, w.stage.rows);
    var out := OosProtocol.Seal(r, w.run.runId, w.job.owner, w.run.token, Some(hash), artifact, now);
    SealWrites(r, w.job, w.run, hash, artifact, now);
    SealingCall(r, w, now, hash);
    if out.result.Failure? {
      GoodWithoutRepoChange(r, w, Effect(r, Finished(w.job, Failure(LeaseError)), None), allowed);
    } else {
      SealingJustified(r, out.repo, w.job, w.auth, w.run, w.stage.rows, w.results, hash, now);
      var seal := Seal(w.job, w.run, w.auth.IdentityHash(), hash, w.stage.rows, w.results);
      SealedGood(r, out.repo, w, hash, now, allowed, seal);
    }
  }

  lemma CollectGood(r: Repo, w: Worker, now: int, fault: Fault, allowed: Relation)
    requires RepoOk(r, allowed) && w.Active? && w.stage.Collect? && WorkerOk(r, w)
    ensures GoodEffect(r, w, StepCollect(r, w, now, fault), allowed)
  {
    hide RunOk;
    hide AuthOk;
    hide ArtifactOk;
    hide HoldsRun;
    var i := w.stage.next;
    if fault.NoFault? && i >= |w.job.candidates| {
      SealingGood(r, w, now, allowed);
    } else {
      if i < |w.job.candidates| {
        assert Checkpointed(r, w.job, w.run.runId, i, w.results[i]);
      }
      GoodWithoutRepoChange(r, w, StepCollect(r, w, now, fault), allowed);
    }
  }

  lemma FailingGood(r: Repo, w: Worker, now: int, fault: Fault, allowed: Relation)
    requires RepoOk(r, allowed) && w.Failing? && WorkerOk(r, w)
    ensures GoodEffect(r, w, StepFailing(r, w, now, fault), allowed)
  {
    hide RepoOk;
    hide Guarantee;
    hide Interrupt;
    InterruptGuarantee(r, w.job, w.run, now, w.terminal, allowed);
    Unchanged(r, CallerOf(w.job), allowed);
  }

  lemma HeardGood(r: Repo, w: Worker, now: int, fault: Fault, newId: string, allowed: Relation)
    requires RepoOk(r, allowed) && WorkerOk(r, w) && Allowed(w.job, allowed)
    requires w.Starting? && w.job.authId in r.auths && ActiveRun(r, r.auths[w.job.authId]).None? ==>
               EffectiveRunId(w.job.runId, None, newId) !in r.runs
    ensures GoodEffect(r, w, StepHeard(r, w, now, fault, newId), allowed)
  {
    var e := StepHeard(r, w, now, fault, newId);
    match w
    case Waiting(_) => GoodWithoutRepoChange(r, w, e, allowed);
    case Starting(_, _) =>
      if fault.NoFault? {
        StartingGood(r, w, now, newId, allowed);
      } else {
        GoodWithoutRepoChange(r, w, e, allowed);
      }
    case Active(_, _, _, Check, _) => GoodWithoutRepoChange(r, w, e, allowed);
    case Active(_, _, _, Look(_), _) => LookGood(r, w, fault, allowed);
    case Active(_, _, _, Evaluate(_), _) => EvaluateGood(r, w, now, fault, allowed);
    case Active(_, _, _, Collect(_, _), _) => CollectGood(r, w, now, fault, allowed);
    case Failing(_, _, _) => FailingGood(r, w, now, fault, allowed);
    case Finished(_, _) => GoodWithoutRepoChange(r, w, e, allowed);
  }

  /** Unless it seals, the call of a worker that holds a run leaves all runs as they are. */
  lemma HeardKeepsRuns(r: Repo, w: Worker, now: int, newId: string)
    requires w.Active? && StepHeard(r, w, now, NoFault, newId).seal.None?
    ensures StepHeard(r, w, now, NoFault, newId).repo.runs == r.runs
  {
    hide CanonicalCohortHash;
    hide IdentityOk;
  }

  /** A lost reply of anything but a granted seal is harmless. */
  lemma UnheardGood(r: Repo, w: Worker, now: int, newId: string, allowed: Relation)
    requires RepoOk(r, allowed) && WorkerOk(r, w)
    requires GoodEffect(r, w, StepHeard(r, w, now, NoFault, newId), allowed)
    requires StepHeard(r, w, now, NoFault, newId).seal.None?
    ensures GoodEffect(r, w, Effect(StepHeard(r, w, now, NoFault, newId).repo, Unheard(w), None), allowed)
  {
    hide Guarantee;
    hide StepHeard;
    hide RepoOk;
    if w.Active? {
      HeardKeepsRuns(r, w, now, newId);
    }
  }

  lemma StepGood(r: Repo, w: Worker, now: int, fault: Fault, newId: string, allowed: Relation)
    requires RepoOk(r, allowed) && WorkerOk(r, w) && Allowed(w.job, allowed)
    requires w.Starting? && w.job.authId in r.auths && ActiveRun(r, r.auths[w.job.authId]).None? ==>
               EffectiveRunId(w.job.runId, None, newId) !in r.runs
    requires fault.LostReply? ==> StepHeard(r, w, now, NoFault, newId).seal.None?
    ensures GoodEffect(r, w, StepWorker(r, w, now, fault, newId), allowed)
  {
    hide RepoOk;
    hide WorkerOk;
    hide GoodEffect;
    hide StepHeard;
    if fault.LostReply? && !(w.Active? && w.stage.Check?) {
      HeardGood(r, w, now, NoFault, newId, allowed);
      UnheardGood(r, w, now, newId, allowed);
    } else {
      HeardGood(r, w, now, fault, newId, allowed);
    }
  }

  // ------------------------------------------------------------------ the whole system

  /** Writing one authorization touches neither runs nor checkpoints nor artifacts. */
  ghost predicate WritesAuth(r: Repo, r': Repo, a: string, auth: Authorization) {
    && r' == r.(auths := r.auths[a := auth]) && auth.authorizationId == a
    && (if a in r.auths
        then
          && SameIdentity(r.auths[a], auth) && auth.activeRunId == r.auths[a].activeRunId
          && !r.auths[a].status.Consumed? && auth.status.Invalidated?
        else auth.activeRunId.None? && !auth.status.Consumed?)
  }

  lemma AuthWriteRun(r: Repo, r': Repo, a: string, auth: Authorization, allowed: Relation, i: string)
    requires RepoOk(r, allowed) && WritesAuth(r, r', a, auth) && i in r.runs
    ensures RunOk(r', i)
  {
    assert RunOk(r, i);
  }

  lemma AuthWriteAuth(r: Repo, r': Repo, a: string, auth: Authorization, allowed: Relation, b: string)
    requires RepoOk(r, allowed) && WritesAuth(r, r', a, auth) && b in r'.auths
    ensures AuthOk(r', b)
  {
    assert b in r.auths ==> AuthOk(r, b);
  }

  lemma AuthWriteRest(r: Repo, r': Repo, a: string, auth: Authorization, allowed: Relation)
    requires RepoOk(r, allowed) && WritesAuth(r, r', a, auth)
    ensures forall k :: k in r'.checkpoints ==> CheckpointOk(r', k, allowed)
    ensures forall d :: d in r'.artifacts ==> ArtifactOk(r', d)
  {
    hide RunOk;
    hide AuthOk;
    forall k | k in r'.checkpoints ensures CheckpointOk(r', k, allowed) { assert CheckpointOk(r, k, allowed); }
    forall d | d in r'.artifacts ensures ArtifactOk(r', d) { assert ArtifactOk(r, d); }
  }

  lemma AuthWriteFrozen(r: Repo, r': Repo, a: string, auth: Authorization, allowed: Relation, i: string)
    requires RepoOk(r, allowed) && WritesAuth(r, r', a, auth) && i in r.runs && r.runs[i].Terminal()
    ensures FrozenRun(r, r', i)
  {
    assert RunOk(r, i);
  }

  lemma AuthWriteGuarantee(r: Repo, r': Repo, a: string, auth: Authorization, mover: Caller, allowed: Relation)
    requires RepoOk(r, allowed) && WritesAuth(r, r', a, auth)
    ensures Guarantee(r, r', mover, allowed) && NoNewSeal(r, r')
  {
    hide RunOk;
    hide AuthOk;
    hide CheckpointOk;
    hide ArtifactOk;
    hide FrozenRun;
    forall i | i in r'.runs ensures RunOk(r', i) { AuthWriteRun(r, r', a, auth, allowed, i); }
    forall b | b in r'.auths ensures AuthOk(r', b) { AuthWriteAuth(r, r', a, auth, allowed, b); }
    AuthWriteRest(r, r', a, auth, allowed);
    forall i | i in r.runs && r.runs[i].Terminal()
      ensures FrozenRun(r, r', i)
    {
      AuthWriteFrozen(r, r', a, auth, allowed, i);
    }
  }

  lemma AuthorizeGuarantee(r: Repo, auth: Authorization, mover: Caller, allowed: Relation)
    requires RepoOk(r, allowed) && auth.status.Authorized? && auth.activeRunId.None?
    ensures var r' := SaveAuthorization(r, auth).repo; Guarantee(r, r', mover, allowed) && NoNewSeal(r, r')
  {
    hide RepoOk;
    hide Guarantee;
    var r' := SaveAuthorization(r, auth).repo;
    if r' != r {
      AuthWriteGuarantee(r, r', auth.authorizationId, auth, mover, allowed);
    } else {
      Unchanged(r, mover, allowed);
    }
  }

  lemma InvalidateGuarantee(r: Repo, authId: string, mover: Caller, allowed: Relation)
    requires RepoOk(r, allowed)
    ensures var r' := InvalidateAuthorization(r, authId).repo; Guarantee(r, r', mover, allowed) && NoNewSeal(r, r')
  {
    hide Guarantee;
    hide RunOk;
    hide CheckpointOk;
    hide ArtifactOk;
    var r' := InvalidateAuthorization(r, authId).repo;
    if r' != r {
      assert AuthOk(r, authId);
      AuthWriteGuarantee(r, r', authId, r'.auths[authId], mover, allowed);
    } else {
      Unchanged(r, mover, allowed);
    }
  }

  const NOBODY: Caller := Caller("", "")

  /** A step of somebody who is not a worker keeps the invariant. */
  lemma OutsideKeepsInv(s: System, r': Repo, allowed: Relation)
    requires Inv(s, allowed) && NoNewSeal(s.repo, r')
    requires forall mover: Caller :: Guarantee(s.repo, r', mover, allowed)
    ensures Inv(s.(repo := r'), allowed)
  {
    hide RepoOk;
    hide Rely;
    hide Frozen;
    hide SealsOk;
    hide WorkerOk;
    assert Guarantee(s.repo, r', NOBODY, allowed);
    SealsStable(s.repo, r', NOBODY, allowed, s.seals);
    forall p | p in s.workers ensures WorkerOk(r', s.workers[p]) {
      var other := Caller(s.workers[p].job.owner + "'", "");
      assert Guarantee(s.repo, r', other, allowed);
      WorkerStable(s.repo, r', other, s.workers[p]);
    }
  }

  /** An authorization that was sealed before is not the one sealed now. */
  lemma SealedTwiceIsImpossible(r: Repo, r': Repo, mover: Caller, allowed: Relation, f: Seal, e: Seal)
    requires RepoOk(r, allowed) && Rely(r, r', mover) && SealOk(r, f) && NewSeal(r, r', e)
    ensures f.job.authId != e.job.authId
  {
    assert RunOk(r, f.run.runId) && RunOk(r, e.run.runId);
    assert RunRely(r.runs[e.run.runId], r'.runs[e.run.runId], mover);
  }

  lemma AllSealsGrow(r: Repo, seals: seq<Seal>, e: Seal)
    requires AllSealsOk(r, seals) && SealOk(r, e)
    ensures AllSealsOk(r, seals + [e])
  {
  }

  lemma SealedOnceGrows(r: Repo, r': Repo, mover: Caller, allowed: Relation, seals: seq<Seal>, e: Seal)
    requires RepoOk(r, allowed) && Rely(r, r', mover) && AllSealsOk(r, seals) && SealedOnce(seals) && NewSeal(r, r', e)
    ensures SealedOnce(seals + [e])
  {
    hide RepoOk;
    hide Rely;
    hide SealOk;
    hide NewSeal;
    forall i | 0 <= i < |seals| ensures seals[i].job.authId != e.job.authId {
      SealedTwiceIsImpossible(r, r', mover, allowed, seals[i], e);
    }
  }

  lemma AllListedGrows(r: Repo, r': Repo, seals: seq<Seal>, e: Seal)
    requires NewSeal(r, r', e) && AllListed(r, seals)
    ensures AllListed(r', seals + [e])
  {
    forall id | id in r'.runs && r'.runs[id].status.Sealed? ensures Listed(seals + [e], id) {
      if id == e.run.runId {
        assert (seals + [e])[|seals|].run.runId == id;
      } else {
        assert Listed(seals, id);
        var i :| 0 <= i < |seals| && seals[i].run.runId == id;
        assert (seals + [e])[i].run.runId == id;
      }
    }
  }

  /** The seal list after a step that sealed `e`. */
  lemma SealsGrow(r: Repo, r': Repo, mover: Caller, allowed: Relation, seals: seq<Seal>, e: Seal)
    requires RepoOk(r, allowed) && Guarantee(r, r', mover, allowed) && SealsOk(r, seals) && NewSeal(r, r', e)
    ensures SealsOk(r', seals + [e])
  {
    AllSealsStable(r, r', mover, allowed, seals);
    AllSealsGrow(r', seals, e);
    SealedOnceGrows(r, r', mover, allowed, seals, e);
    AllListedGrows(r, r', seals, e);
  }

  /** The moved worker works on for its own call, or has finished. */
  ghost predicate SameCall(w: Worker, e: Effect, r: Repo) {
    e.worker.job == w.job && (w.Finished? ==> e.worker == w && e.repo == r)
  }

  lemma WorkersAfterAdvance(s: System, process: string, e: Effect, allowed: Relation)
    requires process in s.workers && WorkersOk(s.repo, s.workers) && NoTwins(s.workers)
    requires Rely(s.repo, e.repo, CallerOf(s.workers[process].job)) && WorkerOk(e.repo, e.worker)
    requires SameCall(s.workers[process], e, s.repo)
    ensures WorkersOk(e.repo, s.workers[process := e.worker]) && NoTwins(s.workers[process := e.worker])
  {
    hide Rely;
    hide CallerOf;
    forall p | p in s.workers ensures WorkerOk(e.repo, s.workers[process := e.worker][p]) {
      if p != process && !s.workers[p].Finished? && !s.workers[process].Finished? {
        WorkerStable(s.repo, e.repo, CallerOf(s.workers[process].job), s.workers[p]);
      }
    }
  }

  lemma JobsAfterAdvance(s: System, process: string, e: Effect, allowed: Relation)
    requires process in s.workers && e.worker.job == s.workers[process].job && JobsAllowed(s.workers, allowed)
    ensures JobsAllowed(s.workers[process := e.worker], allowed)
  {
  }

  lemma SealsAfterAdvance(s: System, process: string, e: Effect, allowed: Relation)
    requires RepoOk(s.repo, allowed) && SealsOk(s.repo, s.seals)
    requires process in s.workers && GoodEffect(s.repo, s.workers[process], e, allowed)
    ensures SealsOk(e.repo, if e.seal.Some? then s.seals + [e.seal.value] else s.seals)
  {
    var mover := CallerOf(s.workers[process].job);
    if e.seal.None? {
      SealsStable(s.repo, e.repo, mover, allowed, s.seals);
    } else {
      SealsGrow(s.repo, e.repo, mover, allowed, s.seals, e.seal.value);
    }
  }

  lemma StepKeepsCall(r: Repo, w: Worker, now: int, fault: Fault, newId: string)
    ensures SameCall(w, StepWorker(r, w, now, fault, newId), r)
  {
    hide StartOrResume;
    hide PutCheckpoint;
    hide OosProtocol.Seal;
    hide Interrupt;
    hide CanonicalCohortHash;
    hide IdentityOk;
  }

  /** Whether a seal is granted does not depend on the new run id. */
  lemma SealNeedsNoRunId(r: Repo, w: Worker, now: int, newId: string)
    ensures StepHeard(r, w, now, NoFault, newId).seal == StepHeard(r, w, now, NoFault, "").seal
  {
    hide StartOrResume;
    hide PutCheckpoint;
    hide OosProtocol.Seal;
    hide Interrupt;
    hide CanonicalCohortHash;
    hide IdentityOk;
  }

  lemma AdvanceGood(s: System, process: string, fault: Fault, newId: string, allowed: Relation)
    requires Inv(s, allowed) && process in s.workers
    requires NewRunIdIsFresh(s, process, newId) && SealIsHeard(s, process, fault)
    ensures GoodEffect(s.repo, s.workers[process], StepWorker(s.repo, s.workers[process], s.clock, fault, newId),
                       allowed)
  {
    hide StepHeard;
    hide StepWorker;
    hide RepoOk;
    hide WorkerOk;
    SealNeedsNoRunId(s.repo, s.workers[process], s.clock, newId);
    StepGood(s.repo, s.workers[process], s.clock, fault, newId, allowed);
  }

  lemma EffectKeepsInv(s: System, process: string, e: Effect, allowed: Relation)
    requires Inv(s, allowed) && process in s.workers && GoodEffect(s.repo, s.workers[process], e, allowed)
    requires SameCall(s.workers[process], e, s.repo)
    ensures Inv(AfterEffect(s, process, e), allowed)
  {
    WorkersAfterAdvance(s, process, e, allowed);
    JobsAfterAdvance(s, process, e, allowed);
    SealsAfterAdvance(s, process, e, allowed);
  }

  lemma AdvanceStep(s: System, process: string, fault: Fault, newId: string)
    requires process in s.workers
    ensures Step(s, Advance(process, fault, newId))
         == AfterEffect(s, process, StepWorker(s.repo, s.workers[process], s.clock, fault, newId))
  {
    hide StepWorker;
  }

  lemma AdvanceKeepsInv(s: System, process: string, fault: Fault, newId: string, allowed: Relation)
    requires Inv(s, allowed) && process in s.workers
    requires NewRunIdIsFresh(s, process, newId) && SealIsHeard(s, process, fault)
    ensures var t := Step(s, Advance(process, fault, newId));
            Inv(t, allowed) && Guarantee(s.repo, t.repo, CallerOf(s.workers[process].job), allowed)
  {
    hide Inv;
    hide StepWorker;
    hide Guarantee;
    AdvanceGood(s, process, fault, newId, allowed);
    StepKeepsCall(s.repo, s.workers[process], s.clock, fault, newId);
    EffectKeepsInv(s, process, StepWorker(s.repo, s.workers[process], s.clock, fault, newId), allowed);
    AdvanceStep(s, process, fault, newId);
  }

  lemma SpawnKeepsInv(s: System, process: string, job: Job, allowed: Relation)
    requires Inv(s, allowed) && CallerIsFree(s, CallerOf(job)) && Allowed(job, allowed)
    ensures Inv(Step(s, Spawn(process, job)), allowed)
  {
    hide RepoOk;
    hide SealsOk;
  }

  lemma CrashKeepsInv(s: System, process: string, allowed: Relation)
    requires Inv(s, allowed)
    ensures Inv(Step(s, Crash(process)), allowed)
  {
    hide RepoOk;
    hide SealsOk;
  }

  /** One step: the invariant holds again and whatever had ended is unchanged. */
  lemma StepKeepsInv(s: System, a: Action, allowed: Relation)
    requires Inv(s, allowed) && Admissible(s, a, allowed)
    ensures Inv(Step(s, a), allowed)
    ensures Frozen(s.repo, Step(s, a).repo)
  {
    hide RunOk;
    hide AuthOk;
    hide WorkerOk;
    hide SealsOk;
    hide StepWorker;
    hide CallerIsFree;
    Unchanged(s.repo, NOBODY, allowed);
    match a
    case Tick(_) =>
    case Authorize(request) =>
      var auth := NewAuthorization(request);
      if auth.Success? {
        var r' := Step(s, a).repo;
        forall mover: Caller ensures Guarantee(s.repo, r', mover, allowed) && NoNewSeal(s.repo, r') {
          AuthorizeGuarantee(s.repo, auth.value, mover, allowed);
        }
        OutsideKeepsInv(s, r', allowed);
        assert Guarantee(s.repo, r', NOBODY, allowed);
      }
    case Invalidate(authId) =>
      var r' := Step(s, a).repo;
      forall mover: Caller ensures Guarantee(s.repo, r', mover, allowed) && NoNewSeal(s.repo, r') {
        InvalidateGuarantee(s.repo, authId, mover, allowed);
      }
      OutsideKeepsInv(s, r', allowed);
      assert Guarantee(s.repo, r', NOBODY, allowed);
    case Spawn(process, job) => SpawnKeepsInv(s, process, job, allowed);
    case Crash(process) => CrashKeepsInv(s, process, allowed);
    case Advance(process, fault, newId) =>
      if process in s.workers {
        AdvanceKeepsInv(s, process, fault, newId, allowed);
      }
  }

  lemma FrozenTransitive(r: Repo, m: Repo, t: Repo, id: string)
    requires FrozenRun(r, m, id) && FrozenRun(m, t, id)
    ensures FrozenRun(r, t, id)
  {
  }

  lemma InitInv(allowed: Relation)
    ensures Inv(Init, allowed)
  {
  }

  lemma {:induction false} RunKeepsInv(s: System, schedule: seq<Action>, allowed: Relation)
    requires Inv(s, allowed) && AdmissibleRun(s, schedule, allowed)
    ensures Inv(Exec(s, schedule), allowed)
    decreases |schedule|
  {
    if schedule != [] {
      StepKeepsInv(s, schedule[0], allowed);
      RunKeepsInv(Step(s, schedule[0]), schedule[1..], allowed);
    }
  }

  /**
   * Terminality. Once a run is SEALED or FAILED_TERMINAL, no admissible schedule changes its record,
   * its checkpoints, the outcome of its authorization or any stored artifact again.
   */
  lemma {:induction false} TerminalRunIsFrozen(s: System, schedule: seq<Action>, allowed: Relation, id: string)
    requires Inv(s, allowed) && AdmissibleRun(s, schedule, allowed)
    requires id in s.repo.runs && s.repo.runs[id].Terminal()
    ensures FrozenRun(s.repo, Exec(s, schedule).repo, id)
    ensures forall d :: d in s.repo.artifacts ==>
              d in Exec(s, schedule).repo.artifacts && Exec(s, schedule).repo.artifacts[d] == s.repo.artifacts[d]
    decreases |schedule|
  {
    if schedule == [] {
      Unchanged(s.repo, NOBODY, allowed);
    } else {
      var m := Step(s, schedule[0]);
      StepKeepsInv(s, schedule[0], allowed);
      assert FrozenRun(s.repo, m.repo, id);
      TerminalRunIsFrozen(m, schedule[1..], allowed, id);
      FrozenTransitive(s.repo, m.repo, Exec(m, schedule[1..]).repo, id);
    }
  }

  /** Any evaluator at all. */
  const AnyResult: Relation := (a: string, h: Digest, p: Payload) => true

  /**
   * Exactly once. In every state an admissible schedule reaches, no authorization has been sealed
   * twice, and an authorization is CONSUMED exactly when one completed seal names it.
   */
  lemma SealedExactlyOnce(schedule: seq<Action>)
    requires AdmissibleRun(Init, schedule, AnyResult)
    ensures var s := Exec(Init, schedule);
            && (forall i, j :: 0 <= i < j < |s.seals| ==> s.seals[i].job.authId != s.seals[j].job.authId)
            && (forall a :: a in s.repo.auths ==>
                  (s.repo.auths[a].status.Consumed? <==> exists i :: 0 <= i < |s.seals| && s.seals[i].job.authId == a))
  {
    InitInv(AnyResult);
    RunKeepsInv(Init, schedule, AnyResult);
    var s := Exec(Init, schedule);
    forall a | a in s.repo.auths
      ensures s.repo.auths[a].status.Consumed? <==> exists i :: 0 <= i < |s.seals| && s.seals[i].job.authId == a
    {
      assert AuthOk(s.repo, a);
      if s.repo.auths[a].status.Consumed? {
        var id := s.repo.auths[a].activeRunId.value;
        assert RunOk(s.repo, id);
        assert Listed(s.seals, id);
        var i :| 0 <= i < |s.seals| && s.seals[i].run.runId == id;
        assert SealOk(s.repo, s.seals[i]);
      }
      if i :| 0 <= i < |s.seals| && s.seals[i].job.authId == a {
        assert SealOk(s.repo, s.seals[i]) && RunOk(s.repo, s.seals[i].run.runId);
      }
    }
  }
}
