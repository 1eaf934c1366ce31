/**
 * Safety of the Final-OOS protocol over every admissible schedule: exactly-once sealing, terminal
 * runs that never change again, and sealed cohorts that do not depend on the schedule.
 *
 * The proof is in rely-guarantee style. `RepoOk` constrains the repository, `WorkerOk` what a live
 * worker may count on, and `Rely` bounds what a step of one caller does to everybody else.
 */
module OosSafety {
  import opened Wrappers
  import opened OosRun
  import opened OosProtocol
  import opened OosSystem

  // ------------------------------------------------------------------ invariants

  ghost predicate RunOk(r: Repo, id: string) {
    id in r.runs &&
    var run := r.runs[id];
    && run.runId == id
    && run.authorizationId in r.auths
    && var auth := r.auths[run.authorizationId];
    && auth.activeRunId == Some(id)
    && (run.status.Sealed? <==> auth.status.Consumed?)
    && (run.status.FailedTerminal? ==> auth.status.Invalidated?)
    && (run.status.Sealed? ==>
          && run.cohortHash.Some?
          && run.cohortHash.value in r.artifacts)
  }

  ghost predicate AuthOk(r: Repo, a: string) {
    a in r.auths &&
    var auth := r.auths[a];
    && auth.authorizationId == a
    && (auth.activeRunId.Some? ==>
          auth.activeRunId.value in r.runs && r.runs[auth.activeRunId.value].authorizationId == a)
    && (auth.status.Consumed? ==> auth.activeRunId.Some?)
  }

  ghost predicate CheckpointOk(r: Repo, k: (string, string), allowed: Relation) {
    k in r.checkpoints &&
    var cp := r.checkpoints[k];
    && k.0 in r.runs
    && cp.runId == k.0 && cp.candidateId == k.1
    && cp.inputHash.InputDigest? && cp.inputHash.id == k.1
    && cp.status.Completed?
    && cp.result.Some?
    && cp.resultHash == Some(ResultDigest(cp.result.value))
    && allowed(r.runs[k.0].authorizationId, cp.inputHash, cp.result.value)
  }

  ghost predicate ArtifactOk(r: Repo, d: Digest) {
    && d in r.artifacts
    && d.CohortDigest?
    && d.runId in r.runs
    && r.runs[d.runId].status.Sealed?
    && r.runs[d.runId].cohortHash == Some(d)
  }

  ghost predicate RepoOk(r: Repo, allowed: Relation) {
    && (forall id :: id in r.runs ==> RunOk(r, id))
    && (forall a :: a in r.auths ==> AuthOk(r, a))
    && (forall k :: k in r.checkpoints ==> CheckpointOk(r, k, allowed))
    && (forall d :: d in r.artifacts ==> ArtifactOk(r, d))
  }

  ghost predicate SameIdentity(a: Authorization, b: Authorization) {
    && a.IdentityHash() == b.IdentityHash()
    && a.authorizationId == b.authorizationId
  }

  /** The worker's snapshot of its authorization carries the stored identity. */
  ghost predicate KnowsAuth(r: Repo, job: Job, auth: Authorization) {
    job.authId in r.auths && SameIdentity(auth, r.auths[job.authId])
  }

  /** The worker may still own its run; if its token is current, nobody has ended the run. */
  ghost predicate HoldsRun(r: Repo, job: Job, run: EvaluationRun) {
    && run.runId in r.runs
    && var cur := r.runs[run.runId];
    && cur.runId == run.runId
    && run.authorizationId == cur.authorizationId == job.authId
    && run.version == cur.version == job.version
    && run.token <= cur.token
    && (run.token == cur.token ==> cur.owner == job.owner && !cur.Terminal())
  }

  ghost predicate TokenCurrent(r: Repo, run: EvaluationRun) {
    run.runId in r.runs && r.runs[run.runId].token == run.token
  }

  /** Candidate `i` is checkpointed under the input hash of this job, with this result. */
  ghost predicate Checkpointed(r: Repo, job: Job, runId: string, i: nat, result: Payload)
    requires i < |job.candidates|
  {
    var key := (runId, job.candidates[i].id);
    && key in r.checkpoints
    && r.checkpoints[key] == CompletedCheckpoint(runId, job.candidates[i].id, InputHash(job.candidates[i]), result)
  }

  ghost predicate ResultsOk(r: Repo, job: Job, runId: string, results: seq<Payload>) {
    && |results| <= |job.candidates|
    && forall i :: 0 <= i < |results| ==> Checkpointed(r, job, runId, i, results[i])
  }

  function CohortRow(c: Candidate, result: Payload): Row {
    Row(c.id, InputHash(c), Some(ResultDigest(result)), Some(result))
  }

  ghost predicate RowsMatch(job: Job, results: seq<Payload>, rows: seq<Row>) {
    && |rows| <= |results| == |job.candidates|
    && forall i :: 0 <= i < |rows| ==> rows[i] == CohortRow(job.candidates[i], results[i])
  }

  ghost predicate StageOk(r: Repo, job: Job, auth: Authorization, run: EvaluationRun, stage: Stage,
                          results: seq<Payload>)
  {
    match stage
    case Check => results == []
    case Look(i) => i == |results| && IdentityOk(job, auth) && ResultsOk(r, job, run.runId, results)
    case Evaluate(i) =>
      && i == |results| < |job.candidates|
      && IdentityOk(job, auth)
      && ResultsOk(r, job, run.runId, results)
      && (TokenCurrent(r, run) ==> (run.runId, job.candidates[i].id) !in r.checkpoints)
    case Collect(i, rows) =>
      && i == |rows|
      && IdentityOk(job, auth)
      && ResultsOk(r, job, run.runId, results)
      && RowsMatch(job, results, rows)
  }

  ghost predicate WorkerOk(r: Repo, w: Worker) {
    match w
    case Waiting(_) => true
    case Starting(job, auth) => KnowsAuth(r, job, auth)
    case Active(job, auth, run, stage, results) =>
      KnowsAuth(r, job, auth) && HoldsRun(r, job, run) && StageOk(r, job, auth, run, stage, results)
    case Failing(job, run, _) => HoldsRun(r, job, run)
    case Finished(_, _) => true
  }

  /** A completed seal is what the repository stores, and its rows are the cohort in the job's order. */
  ghost predicate SealOk(r: Repo, e: Seal) {
    && e.run.runId in r.runs
    && var cur := r.runs[e.run.runId];
    && cur.status.Sealed?
    && cur.authorizationId == e.job.authId == e.run.authorizationId
    && cur.version == e.run.version == e.job.version
    && cur.cohortHash == Some(e.hash)
    && e.job.authId in r.auths
    && var auth := r.auths[e.job.authId];
    && auth.IdentityHash() == e.identity
    && IdentityOk(e.job, auth)
    && |e.rows| == |e.job.candidates|
    && RowsMatch(e.job, e.results, e.rows)
    && ResultsOk(r, e.job, e.run.runId, e.results)
    && CanonicalCohortHash(e.rows, auth, cur) == Success(e.hash)
    && e.hash in r.artifacts
    && r.artifacts[e.hash] == ArtifactOf(e.job.authId, auth, cur, e.rows)
  }

  ghost predicate AllSealsOk(r: Repo, seals: seq<Seal>) {
    forall i :: 0 <= i < |seals| ==> SealOk(r, seals[i])
  }

  ghost predicate SealedOnce(seals: seq<Seal>) {
    forall i, j :: 0 <= i < j < |seals| ==> seals[i].job.authId != seals[j].job.authId
  }

  ghost predicate Listed(seals: seq<Seal>, id: string) {
    exists i :: 0 <= i < |seals| && seals[i].run.runId == id
  }

  ghost predicate AllListed(r: Repo, seals: seq<Seal>) {
    forall id :: id in r.runs && r.runs[id].status.Sealed? ==> Listed(seals, id)
  }

  /** The completed seals are exactly the sealed runs, at most one per authorization. */
  ghost predicate SealsOk(r: Repo, seals: seq<Seal>) {
    AllSealsOk(r, seals) && SealedOnce(seals) && AllListed(r, seals)
  }

  ghost predicate WorkersOk(r: Repo, workers: map<string, Worker>) {
    forall p :: p in workers ==> WorkerOk(r, workers[p])
  }

  ghost predicate JobsAllowed(workers: map<string, Worker>, allowed: Relation) {
    forall p :: p in workers ==> Allowed(workers[p].job, allowed)
  }

  /** No two live workers work for one owner id on one authorization. */
  ghost predicate NoTwins(workers: map<string, Worker>) {
    forall p, q :: p in workers && q in workers && p != q && !workers[p].Finished? && !workers[q].Finished? ==>
      CallerOf(workers[p].job) != CallerOf(workers[q].job)
  }

  ghost predicate Inv(s: System, allowed: Relation) {
    && RepoOk(s.repo, allowed)
    && WorkersOk(s.repo, s.workers)
    && JobsAllowed(s.workers, allowed)
    && NoTwins(s.workers)
    && SealsOk(s.repo, s.seals)
  }

  // ------------------------------------------------------------------ what a step may change

  /** A run keeps its identity; its token only grows, and with an equal token only `mover` touched it. */
  ghost predicate RunRely(x: EvaluationRun, y: EvaluationRun, mover: Caller) {
    && x.runId == y.runId && x.authorizationId == y.authorizationId && x.version == y.version
    && x.token <= y.token
    && (x.token == y.token ==> x.owner == y.owner && (RunCaller(x) != mover ==> x == y))
  }

  function RunCaller(run: EvaluationRun): Caller {
    Caller(run.owner, run.authorizationId)
  }

  ghost predicate Rely(r: Repo, r': Repo, mover: Caller) {
    && (forall a :: a in r.auths ==> a in r'.auths && SameIdentity(r.auths[a], r'.auths[a]))
    && (forall id :: id in r.runs ==> id in r'.runs && RunRely(r.runs[id], r'.runs[id], mover))
    && (forall k :: k in r.checkpoints ==> k in r'.checkpoints && r'.checkpoints[k] == r.checkpoints[k])
    && (forall k :: k in r'.checkpoints && k !in r.checkpoints ==> k.0 in r.runs && RunCaller(r.runs[k.0]) == mover)
  }

  /** Whatever has ended stays as it is. */
  ghost predicate Frozen(r: Repo, r': Repo) {
    && (forall id :: id in r.runs && r.runs[id].Terminal() ==> FrozenRun(r, r', id))
    && (forall d :: d in r.artifacts ==> d in r'.artifacts && r'.artifacts[d] == r.artifacts[d])
  }

  /** The run record, its checkpoints and its authorization's outcome are unchanged. */
  ghost predicate FrozenRun(r: Repo, r': Repo, id: string) {
    && id in r.runs && id in r'.runs && r'.runs[id] == r.runs[id]
    && (forall c: string :: (id, c) in r'.checkpoints <==> (id, c) in r.checkpoints)
    && (forall c: string :: (id, c) in r.checkpoints && (id, c) in r'.checkpoints ==>
          r'.checkpoints[(id, c)] == r.checkpoints[(id, c)])
    && var a := r.runs[id].authorizationId;
    && (a in r.auths ==>
          && a in r'.auths
          && r'.auths[a].status == r.auths[a].status
          && r'.auths[a].activeRunId == r.auths[a].activeRunId
          && (r.auths[a].status.Consumed? ==> r'.auths[a] == r.auths[a]))
  }

  /** Everything a repository transition of `mover` guarantees. */
  ghost predicate Guarantee(r: Repo, r': Repo, mover: Caller, allowed: Relation) {
    RepoOk(r', allowed) && Rely(r, r', mover) && Frozen(r, r')
  }

  lemma Unchanged(r: Repo, mover: Caller, allowed: Relation)
    requires RepoOk(r, allowed)
    ensures Guarantee(r, r, mover, allowed)
  {
  }

  // ------------------------------------------------------------------ repository transitions

  /** The repository after a transition that writes one run and its authorization. */
  function Updated(r: Repo, id: string, run: EvaluationRun, a: string, auth: Authorization): Repo {
    r.(runs := r.runs[id := run], auths := r.auths[a := auth])
  }

  /** The local conditions under which such a write is safe, whoever else is at work. */
  ghost predicate GoodUpdate(r: Repo, id: string, run: EvaluationRun, a: string, auth: Authorization, owner: string) {
    && a in r.auths
    && SameIdentity(r.auths[a], auth)
    && auth.activeRunId == Some(id)
    && run.runId == id && run.authorizationId == a
    && (run.status.FailedTerminal? ==> auth.status.Invalidated?)
    && (if id in r.runs
        then
          && r.runs[id].authorizationId == a
          && !r.runs[id].Terminal()
          && RunRely(r.runs[id], run, Caller(owner, a))
        else r.auths[a].activeRunId.None? && r.auths[a].Available())
  }

  lemma UpdateRely(r: Repo, id: string, run: EvaluationRun, a: string, auth: Authorization, owner: string,
                   allowed: Relation)
    requires RepoOk(r, allowed) && GoodUpdate(r, id, run, a, auth, owner)
    ensures Rely(r, Updated(r, id, run, a, auth), Caller(owner, a))
  {
    hide RepoOk;
  }

  lemma UpdateRunOk(r: Repo, id: string, run: EvaluationRun, a: string, auth: Authorization, owner: string,
                    allowed: Relation, i: string)
    requires RepoOk(r, allowed) && GoodUpdate(r, id, run, a, auth, owner)
    requires !run.status.Sealed? && !auth.status.Consumed?
    requires i in r.runs || i == id
    ensures RunOk(Updated(r, id, run, a, auth), i)
  {
    if i != id {
      assert RunOk(r, i);
      assert AuthOk(r, a);
    }
  }

  lemma UpdateAuthOk(r: Repo, id: string, run: EvaluationRun, a: string, auth: Authorization, owner: string,
                     allowed: Relation, b: string)
    requires RepoOk(r, allowed) && GoodUpdate(r, id, run, a, auth, owner)
    requires b in r.auths
    ensures AuthOk(Updated(r, id, run, a, auth), b)
  {
    assert AuthOk(r, b) && AuthOk(r, a);
  }

  lemma UpdateRepoOk(r: Repo, id: string, run: EvaluationRun, a: string, auth: Authorization, owner: string,
                     allowed: Relation)
    requires RepoOk(r, allowed) && GoodUpdate(r, id, run, a, auth, owner)
    requires !run.status.Sealed? && !auth.status.Consumed?
    ensures RepoOk(Updated(r, id, run, a, auth), allowed)
  {
    var r' := Updated(r, id, run, a, auth);
    forall i | i in r'.runs ensures RunOk(r', i) {
      UpdateRunOk(r, id, run, a, auth, owner, allowed, i);
    }
    forall b | b in r'.auths ensures AuthOk(r', b) {
      UpdateAuthOk(r, id, run, a, auth, owner, allowed, b);
    }
    forall k | k in r'.checkpoints ensures CheckpointOk(r', k, allowed) {
      assert CheckpointOk(r, k, allowed);
    }
    forall d | d in r'.artifacts ensures ArtifactOk(r', d) {
      assert ArtifactOk(r, d);
    }
  }

  lemma UpdateFrozen(r: Repo, id: string, run: EvaluationRun, a: string, auth: Authorization, owner: string,
                     allowed: Relation)
    requires RepoOk(r, allowed) && GoodUpdate(r, id, run, a, auth, owner)
    ensures Frozen(r, Updated(r, id, run, a, auth))
  {
    forall i | i in r.runs && r.runs[i].Terminal() ensures FrozenRun(r, Updated(r, id, run, a, auth), i) {
      assert RunOk(r, i);
      assert AuthOk(r, a);
    }
  }

  lemma UpdateGuarantee(r: Repo, id: string, run: EvaluationRun, a: string, auth: Authorization, owner: string,
                        allowed: Relation)
    requires RepoOk(r, allowed) && GoodUpdate(r, id, run, a, auth, owner)
    requires !run.status.Sealed? && !auth.status.Consumed?
    ensures Guarantee(r, Updated(r, id, run, a, auth), Caller(owner, a), allowed)
  {
    UpdateRely(r, id, run, a, auth, owner, allowed);
    UpdateRepoOk(r, id, run, a, auth, owner, allowed);
    UpdateFrozen(r, id, run, a, auth, owner, allowed);
  }

  ghost predicate NoNewSeal(r: Repo, r': Repo) {
    forall id :: id in r'.runs && r'.runs[id].status.Sealed? ==> id in r.runs && r.runs[id].status.Sealed?
  }

  /** What `start_or_resume` writes when it succeeds. */
  lemma StartWrites(r: Repo, job: Job, now: int, newId: string, allowed: Relation)
    returns (auth: Authorization)
    requires RepoOk(r, allowed)
    requires job.authId in r.auths && ActiveRun(r, r.auths[job.authId]).None? ==>
               EffectiveRunId(job.runId, None, newId) !in r.runs
    requires StartOrResume(r, job.authId, job.runId, job.owner, job.lease, job.version, now, newId).result.Success?
    ensures var out := StartOrResume(r, job.authId, job.runId, job.owner, job.lease, job.version, now, newId);
            var run := out.result.value;
            && GoodUpdate(r, run.runId, run, job.authId, auth, job.owner)
            && run.status.Running? && run.owner == job.owner && run.version == job.version
            && auth.status.Evaluating?
            && out.repo == Updated(r, run.runId, run, job.authId, auth)
  {
    var out := StartOrResume(r, job.authId, job.runId, job.owner, job.lease, job.version, now, newId);
    auth := out.repo.auths[job.authId];
    assert AuthOk(r, job.authId);
    if r.auths[job.authId].activeRunId.Some? {
      assert RunOk(r, r.auths[job.authId].activeRunId.value);
    }
  }

  lemma StartFailureIsHarmless(r: Repo, job: Job, now: int, newId: string)
    requires StartOrResume(r, job.authId, job.runId, job.owner, job.lease, job.version, now, newId).result.Failure?
    ensures StartOrResume(r, job.authId, job.runId, job.owner, job.lease, job.version, now, newId).repo == r
  {
  }

  lemma StartGuarantee(r: Repo, job: Job, now: int, newId: string, allowed: Relation)
    requires RepoOk(r, allowed)
    requires job.authId in r.auths && ActiveRun(r, r.auths[job.authId]).None? ==>
               EffectiveRunId(job.runId, None, newId) !in r.runs
    ensures var r' := StartOrResume(r, job.authId, job.runId, job.owner, job.lease, job.version, now, newId).repo;
            Guarantee(r, r', CallerOf(job), allowed) && NoNewSeal(r, r')
  {
    var out := StartOrResume(r, job.authId, job.runId, job.owner, job.lease, job.version, now, newId);
    if out.result.Success? {
      var auth := StartWrites(r, job, now, newId, allowed);
      UpdateGuarantee(r, out.result.value.runId, out.result.value, job.authId, auth, job.owner, allowed);
    } else {
      StartFailureIsHarmless(r, job, now, newId);
      Unchanged(r, CallerOf(job), allowed);
    }
  }

  lemma StartHolds(r: Repo, job: Job, now: int, newId: string, allowed: Relation)
    requires RepoOk(r, allowed)
    requires job.authId in r.auths && ActiveRun(r, r.auths[job.authId]).None? ==>
               EffectiveRunId(job.runId, None, newId) !in r.runs
    requires StartOrResume(r, job.authId, job.runId, job.owner, job.lease, job.version, now, newId).result.Success?
    ensures var out := StartOrResume(r, job.authId, job.runId, job.owner, job.lease, job.version, now, newId);
            && job.authId in r.auths
            && out.result.value.version == job.version
            && HoldsRun(out.repo, job, out.result.value)
  {
    var auth := StartWrites(r, job, now, newId, allowed);
  }

  /** What `interrupt` writes for a holder. */
  lemma InterruptWrites(r: Repo, job: Job, run: EvaluationRun, now: int, terminal: bool, allowed: Relation)
    requires RepoOk(r, allowed) && HoldsRun(r, job, run)
    ensures var out := Interrupt(r, run.runId, job.owner, run.token, now, terminal);
            if out.result.Failure? then out.repo == r
            else
              && job.authId in out.repo.auths
              && var x, auth := out.result.value, out.repo.auths[job.authId];
              && GoodUpdate(r, run.runId, x, job.authId, auth, job.owner)
              && !x.status.Sealed? && !auth.status.Consumed?
              && out.repo == Updated(r, run.runId, x, job.authId, auth)
  {
    hide CheckpointOk;
    hide ArtifactOk;
    assert RunOk(r, run.runId);
  }

  lemma InterruptGuarantee(r: Repo, job: Job, run: EvaluationRun, now: int, terminal: bool, allowed: Relation)
    requires RepoOk(r, allowed) && HoldsRun(r, job, run)
    ensures var r' := Interrupt(r, run.runId, job.owner, run.token, now, terminal).repo;
            Guarantee(r, r', CallerOf(job), allowed) && NoNewSeal(r, r')
  {
    var out := Interrupt(r, run.runId, job.owner, run.token, now, terminal);
    InterruptWrites(r, job, run, now, terminal, allowed);
    hide Interrupt;
    hide Guarantee;
    hide RepoOk;
    hide HoldsRun;
    hide GoodUpdate;
    if out.result.Success? {
      UpdateGuarantee(r, run.runId, out.result.value, job.authId, out.repo.auths[job.authId], job.owner, allowed);
    } else {
      Unchanged(r, CallerOf(job), allowed);
    }
  }

  lemma PutRepoOk(r: Repo, key: (string, string), cp: Checkpoint, allowed: Relation)
    requires RepoOk(r, allowed) && key !in r.checkpoints && key.0 in r.runs
    requires CheckpointOk(r.(checkpoints := r.checkpoints[key := cp]), key, allowed)
    ensures RepoOk(r.(checkpoints := r.checkpoints[key := cp]), allowed)
  {
    var r' := r.(checkpoints := r.checkpoints[key := cp]);
    forall i | i in r'.runs ensures RunOk(r', i) { assert RunOk(r, i); }
    forall a | a in r'.auths ensures AuthOk(r', a) { assert AuthOk(r, a); }
    forall k | k in r'.checkpoints ensures CheckpointOk(r', k, allowed) {
      assert k != key ==> CheckpointOk(r, k, allowed);
    }
    forall d | d in r'.artifacts ensures ArtifactOk(r', d) { assert ArtifactOk(r, d); }
  }

  lemma PutRely(r: Repo, mover: Caller, key: (string, string), cp: Checkpoint)
    requires key !in r.checkpoints && key.0 in r.runs && RunCaller(r.runs[key.0]) == mover
    ensures Rely(r, r.(checkpoints := r.checkpoints[key := cp]), mover)
  {
  }

  lemma PutGuarantee(r: Repo, mover: Caller, key: (string, string), cp: Checkpoint, allowed: Relation)
    requires RepoOk(r, allowed) && key !in r.checkpoints && key.0 in r.runs
    requires !r.runs[key.0].Terminal() && RunCaller(r.runs[key.0]) == mover
    requires CheckpointOk(r.(checkpoints := r.checkpoints[key := cp]), key, allowed)
    ensures Guarantee(r, r.(checkpoints := r.checkpoints[key := cp]), mover, allowed)
  {
    hide CheckpointOk;
    var r' := r.(checkpoints := r.checkpoints[key := cp]);
    PutRepoOk(r, key, cp, allowed);
    PutRely(r, mover, key, cp);
    hide RepoOk;
    hide Rely;
    forall i | i in r.runs && r.runs[i].Terminal() ensures FrozenRun(r, r', i) {
      assert i != key.0;
    }
  }

  /** What `put_checkpoint` does for a holder whose key is still unwritten. */
  lemma PutWrites(r: Repo, job: Job, run: EvaluationRun, cp: Checkpoint, now: int)
    requires HoldsRun(r, job, run) && cp.runId == run.runId
    requires TokenCurrent(r, run) ==> (run.runId, cp.candidateId) !in r.checkpoints
    ensures var out := PutCheckpoint(r, cp, job.owner, run.token, now);
            if out.result.Failure?
            then out.repo == r && out.result.error == LeaseError
            else
              && (run.runId, cp.candidateId) !in r.checkpoints
              && out.repo == r.(checkpoints := r.checkpoints[(run.runId, cp.candidateId) := cp])
              && r.runs[run.runId].owner == job.owner && !r.runs[run.runId].Terminal()
  {
  }

  ghost predicate SealedFrom(r: Repo, r': Repo, id: string, hash: Digest, artifact: Artifact, now: int) {
    && id in r.runs && !r.runs[id].Terminal()
    && r'.runs == r.runs[id := r.runs[id].(status := Sealed, cohortHash := Some(hash), sealedAt := Some(now))]
    && r'.artifacts == r.artifacts[hash := artifact]
    && r'.checkpoints == r.checkpoints
    && var a := r.runs[id].authorizationId;
    && a in r.auths && r.auths[a].activeRunId == Some(id)
    && r'.auths == r.auths[a := r.auths[a].(status := Consumed, consumedAt := Some(now),
                                            version := r.auths[a].version + 1)]
  }

  /** What `seal` does for a holder. */
  lemma SealWrites(r: Repo, job: Job, run: EvaluationRun, hash: Digest, artifact: Artifact, now: int)
    requires HoldsRun(r, job, run)
    ensures var out := OosProtocol.Seal(r, run.runId, job.owner, run.token, Some(hash), artifact, now);
            if out.result.Failure? then out.repo == r && out.result.error == LeaseError
            else SealedFrom(r, out.repo, run.runId, hash, artifact, now) && r.runs[run.runId].owner == job.owner
  {
  }

  lemma SealRepoOk(r: Repo, r': Repo, id: string, hash: Digest, artifact: Artifact, now: int, allowed: Relation)
    requires RepoOk(r, allowed) && SealedFrom(r, r', id, hash, artifact, now)
    requires hash.CohortDigest? && hash.runId == id
    ensures RepoOk(r', allowed) && hash !in r.artifacts
  {
    assert RunOk(r, id);
    assert hash in r.artifacts ==> ArtifactOk(r, hash);
    forall i | i in r'.runs ensures RunOk(r', i) { assert RunOk(r, i); }
    forall a | a in r'.auths ensures AuthOk(r', a) { assert AuthOk(r, a); }
    forall k | k in r'.checkpoints ensures CheckpointOk(r', k, allowed) { assert CheckpointOk(r, k, allowed); }
    forall d | d in r'.artifacts ensures ArtifactOk(r', d) {
      assert d != hash ==> ArtifactOk(r, d);
    }
  }

  lemma SealRely(r: Repo, r': Repo, mover: Caller, id: string, hash: Digest, artifact: Artifact, now: int,
                 allowed: Relation)
    requires RepoOk(r, allowed) && SealedFrom(r, r', id, hash, artifact, now) && RunCaller(r.runs[id]) == mover
    ensures Rely(r, r', mover)
  {
    hide RepoOk;
  }

  lemma SealFrozen(r: Repo, r': Repo, id: string, hash: Digest, artifact: Artifact, now: int, allowed: Relation)
    requires RepoOk(r, allowed) && SealedFrom(r, r', id, hash, artifact, now) && hash !in r.artifacts
    ensures Frozen(r, r')
  {
    forall i | i in r.runs && r.runs[i].Terminal() ensures FrozenRun(r, r', i) {
      assert RunOk(r, i) && i != id;
    }
  }

  lemma SealGuarantee(r: Repo, r': Repo, mover: Caller, id: string, hash: Digest, artifact: Artifact, now: int,
                      allowed: Relation)
    requires RepoOk(r, allowed) && SealedFrom(r, r', id, hash, artifact, now)
    requires hash.CohortDigest? && hash.runId == id && RunCaller(r.runs[id]) == mover
    ensures Guarantee(r, r', mover, allowed)
  {
    SealRepoOk(r, r', id, hash, artifact, now, allowed);
    SealRely(r, r', mover, id, hash, artifact, now, allowed);
    SealFrozen(r, r', id, hash, artifact, now, allowed);
  }
}
