/**
 * The transitions of the Final-OOS repository on values.
 *
 * Every operation takes the repository, the clock reading of the call and its arguments, and
 * gives the successor repository with the returned record or the raised exception. Both
 * repository classes are proved to compute these functions.
 */
module OosProtocol {
  import opened Wrappers
  import opened OosRun
  import Text

  datatype Repo = Repo(
    auths: map<string, Authorization>, runs: map<string, EvaluationRun>,
    checkpoints: map<(string, string), Checkpoint>, artifacts: map<Digest, Artifact>)

  datatype Outcome<+T> = Outcome(repo: Repo, result: Result<T, Error>)

  function ActiveRun(s: Repo, auth: Authorization): Option<EvaluationRun> {
    if auth.activeRunId.Some? && auth.activeRunId.value in s.runs then Some(s.runs[auth.activeRunId.value]) else None
  }

  /** `run_id or (active.run_id if active is not None else uuid)` */
  function EffectiveRunId(runId: Option<string>, active: Option<EvaluationRun>, newId: string): string {
    if runId.Some? && runId.value != "" then runId.value
    else if active.Some? then active.value.runId
    else newId
  }

  /** The record checks of `OosEvaluationRun.__post_init__`. */
  predicate RunRecordOk(run: EvaluationRun) {
    !Text.Blank(run.runId) && !Text.Blank(run.authorizationId) && !Text.Blank(run.owner) && !Text.Blank(run.version)
  }

  function SaveAuthorization(s: Repo, auth: Authorization): Outcome<Authorization> {
    if auth.authorizationId in s.auths then
      var existing := s.auths[auth.authorizationId];
      if existing.IdentityHash() != auth.IdentityHash() then Outcome(s, Failure(IdentityError))
      else Outcome(s, Success(existing))
    else Outcome(s.(auths := s.auths[auth.authorizationId := auth]), Success(auth))
  }

  function InvalidateAuthorization(s: Repo, authId: string): Outcome<Authorization> {
    if authId !in s.auths then Outcome(s, Failure(IdentityError))
    else if s.auths[authId].status.Consumed? then Outcome(s, Success(s.auths[authId]))
    else
      var auth := s.auths[authId].(status := Invalidated, version := s.auths[authId].version + 1);
      Outcome(s.(auths := s.auths[authId := auth]), Success(auth))
  }

  function StoreRun(s: Repo, id: string, run: EvaluationRun, authId: string, activeRunId: Option<string>)
    : Outcome<EvaluationRun>
    requires authId in s.auths
  {
    if !RunRecordOk(run) then Outcome(s, Failure(ValueError))
    else
      var auth := s.auths[authId];
      Outcome(s.(runs := s.runs[id := run],
                 auths := s.auths[authId := auth.(activeRunId := activeRunId, status := Evaluating,
                                                  version := auth.version + 1)]),
              Success(run))
  }

  function StartOrResume(s: Repo, authId: string, runId: Option<string>, owner: string, lease: int, version: string,
                         now: int, newId: string): Outcome<EvaluationRun>
  {
    if lease <= 0 then Outcome(s, Failure(ValueError))
    else if authId !in s.auths || !s.auths[authId].Available() then Outcome(s, Failure(IdentityError))
    else
      var active := ActiveRun(s, s.auths[authId]);
      if active.Some? && runId.Some? && runId.value != active.value.runId then Outcome(s, Failure(LeaseError))
      else
        var id := EffectiveRunId(runId, active, newId);
        if active.None? then
          StoreRun(s, id, EvaluationRun(id, authId, owner, 1, Running, now + lease, version, None, None), authId,
                   Some(id))
        else if active.value.version != version then Outcome(s, Failure(IdentityError))
        else if active.value.runId == id && active.value.owner == owner && active.value.leaseExpiresAt > now then
          StoreRun(s, id, active.value.(status := Running, leaseExpiresAt := now + lease), authId,
                   s.auths[authId].activeRunId)
        else if active.value.leaseExpiresAt > now then Outcome(s, Failure(LeaseError))
        else
          StoreRun(s, id, active.value.(owner := owner, token := active.value.token + 1, status := Running,
                                        leaseExpiresAt := now + lease), authId, Some(id))
  }

  /**
   * The unique index on the artifact's run id lists exactly the stored artifacts, each under the run id
   * that its hash carries.
   */
  ghost predicate IndexOk(index: map<string, Digest>, artifacts: map<Digest, Artifact>) {
    && (forall r :: r in index ==> index[r] in artifacts && index[r].CohortDigest? && index[r].runId == r)
    && (forall d :: d in artifacts ==> d.CohortDigest? && d.runId in index && index[d.runId] == d)
  }

  lemma IndexGrows(index: map<string, Digest>, artifacts: map<Digest, Artifact>, hash: Digest, artifact: Artifact)
    requires IndexOk(index, artifacts) && hash.CohortDigest? && hash.runId !in index
    ensures IndexOk(index[hash.runId := hash], artifacts[hash := artifact])
  {
  }

  /** A start that is refused changes nothing. */
  lemma StartRefused(s: Repo, authId: string, runId: Option<string>, owner: string, lease: int, version: string,
                     now: int, newId: string)
    ensures var out := StartOrResume(s, authId, runId, owner, lease, version, now, newId);
            out.result.Failure? ==> out.repo == s
  {
  }

  /** The tables after a successful start, when runs are stored under their own ids. */
  lemma StartShape(s: Repo, authId: string, runId: Option<string>, owner: string, lease: int, version: string, now: int,
                   newId: string)
    requires forall r :: r in s.runs ==> s.runs[r].runId == r
    requires StartOrResume(s, authId, runId, owner, lease, version, now, newId).result.Success?
    ensures var out := StartOrResume(s, authId, runId, owner, lease, version, now, newId);
            && authId in s.auths
            && var auth, run, active := s.auths[authId], out.result.value, ActiveRun(s, s.auths[authId]);
            && out.repo == s.(runs := s.runs[run.runId := run],
                              auths := s.auths[authId := auth.(activeRunId := Some(run.runId), status := Evaluating,
                                                               version := auth.version + 1)])
            && (active.Some? ==>
                  && run.runId == active.value.runId && auth.activeRunId == Some(run.runId) && run.runId in s.runs)
            && (active.None? ==> run.runId == EffectiveRunId(runId, None, newId))
  {
  }

  /** `_owned` */
  function Owned(s: Repo, runId: string, owner: string, token: int, now: int, allowExpired: bool)
    : (r: Result<EvaluationRun, Error>)
    ensures r.Success? <==>
      && runId in s.runs && s.runs[runId].owner == owner && s.runs[runId].token == token
      && s.runs[runId].authorizationId in s.auths
      && s.auths[s.runs[runId].authorizationId].activeRunId == Some(runId)
      && (allowExpired || now < s.runs[runId].leaseExpiresAt)
    ensures r.Success? ==> r.value == s.runs[runId]
    ensures r.Failure? ==> r.error == LeaseError
  {
    if runId !in s.runs || s.runs[runId].owner != owner || s.runs[runId].token != token then Failure(LeaseError)
    else
      var run := s.runs[runId];
      if run.authorizationId !in s.auths || s.auths[run.authorizationId].activeRunId != Some(runId) then
        Failure(LeaseError)
      else if !allowExpired && run.leaseExpiresAt <= now then Failure(LeaseError)
      else Success(run)
  }

  function Renew(s: Repo, runId: string, owner: string, token: int, lease: int, now: int): Outcome<EvaluationRun> {
    if lease <= 0 then Outcome(s, Failure(ValueError))
    else
      var owned := Owned(s, runId, owner, token, now, false);
      if owned.Failure? then Outcome(s, Failure(owned.error))
      else
        var run := owned.value.(leaseExpiresAt := now + lease, status := Running);
        Outcome(s.(runs := s.runs[runId := run]), Success(run))
  }

  function PutCheckpoint(s: Repo, cp: Checkpoint, owner: string, token: int, now: int): Outcome<Checkpoint> {
    var owned := Owned(s, cp.runId, owner, token, now, false);
    if owned.Failure? then Outcome(s, Failure(owned.error))
    else if owned.value.Terminal() then Outcome(s, Failure(RunError))
    else StoreCheckpoint(s, cp)
  }

  /** The write-once part of `put_checkpoint`. */
  function StoreCheckpoint(s: Repo, cp: Checkpoint): Outcome<Checkpoint> {
    var key := (cp.runId, cp.candidateId);
    if key in s.checkpoints then
      var existing := s.checkpoints[key];
      if existing.inputHash != cp.inputHash || existing.resultHash != cp.resultHash then
        Outcome(s, Failure(CheckpointConflict))
      else Outcome(s, Success(existing))
    else Outcome(s.(checkpoints := s.checkpoints[key := cp]), Success(cp))
  }

  function Interrupt(s: Repo, runId: string, owner: string, token: int, now: int, terminal: bool)
    : Outcome<EvaluationRun>
  {
    var owned := Owned(s, runId, owner, token, now, true);
    if owned.Failure? then Outcome(s, Failure(owned.error))
    else
      var run := owned.value.(status := if terminal then FailedTerminal else Interrupted);
      var auth := s.auths[run.authorizationId];
      Outcome(s.(runs := s.runs[runId := run],
                 auths := s.auths[run.authorizationId :=
                   auth.(status := if terminal then Invalidated else EvaluatingInterrupted,
                         version := auth.version + 1)]),
              Success(run))
  }

  function Seal(s: Repo, runId: string, owner: string, token: int, hash: Option<Digest>, artifact: Artifact, now: int)
    : Outcome<EvaluationRun>
  {
    var owned := Owned(s, runId, owner, token, now, false);
    if owned.Failure? then Outcome(s, Failure(owned.error))
    else if hash.None? then Outcome(s, Failure(RunError))
    else
      var run := owned.value.(status := Sealed, cohortHash := hash, sealedAt := Some(now));
      var auth := s.auths[run.authorizationId];
      Outcome(s.(runs := s.runs[runId := run],
                 artifacts := s.artifacts[hash.value := artifact],
                 auths := s.auths[run.authorizationId :=
                   auth.(status := Consumed, consumedAt := Some(now), version := auth.version + 1)]),
              Success(run))
  }
}
