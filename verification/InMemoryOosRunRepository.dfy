/** The in-memory repository: four dictionaries, one lock, every method one atomic transition. */
module InMemoryOosRunRepository {
  import opened Wrappers
  import opened OosRun
  import P = OosProtocol
  import opened OosProtocol

  class InMemoryOosRunRepository {
    var authorizations: map<string, Authorization>
    var runs: map<string, EvaluationRun>
    var checkpoints: map<(string, string), Checkpoint>
    var artifacts: map<Digest, Artifact>

    ghost function State(): Repo
      reads this
    {
      Repo(authorizations, runs, checkpoints, artifacts)
    }

    constructor ()
      ensures State() == Repo(map[], map[], map[], map[])
    {
      authorizations, runs, checkpoints, artifacts := map[], map[], map[], map[];
    }

    method SaveAuthorization(auth: Authorization) returns (r: Result<Authorization, Error>)
      modifies this
      ensures Outcome(State(), r) == P.SaveAuthorization(old(State()), auth)
    {
      if auth.authorizationId in authorizations {
        var existing := authorizations[auth.authorizationId];
        if existing.IdentityHash() != auth.IdentityHash() {
          return Failure(IdentityError);
        }
        return Success(existing);
      }
      authorizations := authorizations[auth.authorizationId := auth];
      return Success(auth);
    }

    method GetAuthorization(authId: string) returns (r: Option<Authorization>)
      ensures r == if authId in State().auths then Some(State().auths[authId]) else None
    {
      r := if authId in authorizations then Some(authorizations[authId]) else None;
    }

    method InvalidateAuthorization(authId: string) returns (r: Result<Authorization, Error>)
      modifies this
      ensures Outcome(State(), r) == P.InvalidateAuthorization(old(State()), authId)
    {
      if authId !in authorizations {
        return Failure(IdentityError);
      }
      var auth := authorizations[authId];
      if !auth.status.Consumed? {
        auth := auth.(status := Invalidated, version := auth.version + 1);
        authorizations := authorizations[authId := auth];
      }
      return Success(auth);
    }

    method StartOrResume(authId: string, runId: Option<string>, owner: string, lease: int, version: string, now: int,
                         newId: string)
      returns (r: Result<EvaluationRun, Error>)
      modifies this
      ensures Outcome(State(), r) == P.StartOrResume(old(State()), authId, runId, owner, lease, version, now, newId)
    {
      if lease <= 0 {
        return Failure(ValueError);
      }
      if authId !in authorizations || authorizations[authId].status in {Consumed, Invalidated} {
        return Failure(IdentityError);
      }
      var auth := authorizations[authId];
      var active: Option<EvaluationRun> := None;
      if auth.activeRunId.Some? && auth.activeRunId.value in runs {
        active := Some(runs[auth.activeRunId.value]);
      }
      if active.Some? && runId.Some? && runId.value != active.value.runId {
        return Failure(LeaseError);
      }
      var id := newId;
      if runId.Some? && runId.value != "" {
        id := runId.value;
      } else if active.Some? {
        id := active.value.runId;
      }
      if active.Some? && active.value.version != version {
        return Failure(IdentityError);
      }
      if active.Some? {
        if active.value.runId == id && active.value.owner == owner && active.value.leaseExpiresAt > now {
          var run := active.value.(status := Running, leaseExpiresAt := now + lease);
          if !RunRecordOk(run) {
            return Failure(ValueError);
          }
          runs := runs[id := run];
          authorizations := authorizations[authId := auth.(status := Evaluating, version := auth.version + 1)];
          return Success(run);
        }
        if active.value.leaseExpiresAt > now {
          return Failure(LeaseError);
        }
        var run := active.value.(owner := owner, token := active.value.token + 1, status := Running,
                                 leaseExpiresAt := now + lease);
        if !RunRecordOk(run) {
          return Failure(ValueError);
        }
        runs := runs[id := run];
        authorizations := authorizations[authId := auth.(activeRunId := Some(id), status := Evaluating,
                                                         version := auth.version + 1)];
        return Success(run);
      }
      var run := EvaluationRun(id, authId, owner, 1, Running, now + lease, version, None, None);
      if !RunRecordOk(run) {
        return Failure(ValueError);
      }
      runs := runs[id := run];
      authorizations := authorizations[authId := auth.(activeRunId := Some(id), status := Evaluating,
                                                       version := auth.version + 1)];
      return Success(run);
    }

    method Owned(runId: string, owner: string, token: int, now: int, allowExpired: bool)
      returns (r: Result<EvaluationRun, Error>)
      ensures r == P.Owned(State(), runId, owner, token, now, allowExpired)
    {
      if runId !in runs || runs[runId].owner != owner || runs[runId].token != token {
        return Failure(LeaseError);
      }
      var run := runs[runId];
      if run.authorizationId !in authorizations || authorizations[run.authorizationId].activeRunId != Some(runId) {
        return Failure(LeaseError);
      }
      if !allowExpired && run.leaseExpiresAt <= now {
        return Failure(LeaseError);
      }
      return Success(run);
    }

    method Renew(runId: string, owner: string, token: int, lease: int, now: int)
      returns (r: Result<EvaluationRun, Error>)
      modifies this
      ensures Outcome(State(), r) == P.Renew(old(State()), runId, owner, token, lease, now)
    {
      if lease <= 0 {
        return Failure(ValueError);
      }
      var owned := Owned(runId, owner, token, now, false);
      if owned.Failure? {
        return owned;
      }
      var result := owned.value.(leaseExpiresAt := now + lease, status := Running);
      runs := runs[runId := result];
      return Success(result);
    }

    method GetCheckpoint(runId: string, candidateId: string) returns (r: Option<Checkpoint>)
      ensures r == if (runId, candidateId) in State().checkpoints
              then Some(State().checkpoints[(runId, candidateId)]) else None
    {
      r := if (runId, candidateId) in checkpoints then Some(checkpoints[(runId, candidateId)]) else None;
    }

    method PutCheckpoint(cp: Checkpoint, owner: string, token: int, now: int) returns (r: Result<Checkpoint, Error>)
      modifies this
      ensures Outcome(State(), r) == P.PutCheckpoint(old(State()), cp, owner, token, now)
    {
      var owned := Owned(cp.runId, owner, token, now, false);
      if owned.Failure? {
        return Failure(owned.error);
      }
      if owned.value.status in {Sealed, FailedTerminal} {
        return Failure(RunError);
      }
      var key := (cp.runId, cp.candidateId);
      if key in checkpoints {
        var existing := checkpoints[key];
        if existing.inputHash != cp.inputHash || existing.resultHash != cp.resultHash {
          return Failure(CheckpointConflict);
        }
        return Success(existing);
      }
      checkpoints := checkpoints[key := cp];
      return Success(cp);
    }

    method Interrupt(runId: string, owner: string, token: int, now: int, terminal: bool)
      returns (r: Result<EvaluationRun, Error>)
      modifies this
      ensures Outcome(State(), r) == P.Interrupt(old(State()), runId, owner, token, now, terminal)
    {
      var owned := Owned(runId, owner, token, now, true);
      if owned.Failure? {
        return owned;
      }
      var result := owned.value.(status := if terminal then FailedTerminal else Interrupted);
      runs := runs[runId := result];
      var auth := authorizations[result.authorizationId];
      authorizations := authorizations[result.authorizationId :=
        auth.(status := if terminal then Invalidated else EvaluatingInterrupted, version := auth.version + 1)];
      return Success(result);
    }

    method Seal(runId: string, owner: string, token: int, hash: Option<Digest>, artifact: Artifact, now: int)
      returns (r: Result<EvaluationRun, Error>)
      modifies this
      ensures Outcome(State(), r) == P.Seal(old(State()), runId, owner, token, hash, artifact, now)
    {
      var owned := Owned(runId, owner, token, now, false);
      if owned.Failure? {
        return owned;
      }
      if hash.None? {
        return Failure(RunError);
      }
      var result := owned.value.(status := Sealed, cohortHash := hash, sealedAt := Some(now));
      runs := runs[runId := result];
      artifacts := artifacts[hash.value := artifact];
      var auth := authorizations[result.authorizationId];
      authorizations := authorizations[result.authorizationId :=
        auth.(status := Consumed, consumedAt := Some(now), version := auth.version + 1)];
      return Success(result);
    }
  }
}
