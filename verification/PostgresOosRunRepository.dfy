/**
 * The SQLAlchemy repository: rows are objects whose columns a transaction assigns.
 *
 * Each method is one transaction. A transaction that raises is rolled back, so the checks that the
 * database or the returned record makes at the end come before the first assignment here.
 */
module PostgresOosRunRepository {
  import opened Wrappers
  import opened OosRun
  import P = OosProtocol
  import D = OosDatabase
  import opened OosProtocol

  /** A table row: one mutable object whose columns are the fields of the record. */
  class Row<T> {
    var columns: T

    constructor (columns: T)
      ensures this.columns == columns
    {
      this.columns := columns;
    }
  }

  function EndedRun(run: EvaluationRun, terminal: bool): EvaluationRun {
    run.(status := if terminal then FailedTerminal else Interrupted)
  }

  function EndedAuth(auth: Authorization, terminal: bool): Authorization {
    auth.(status := if terminal then Invalidated else EvaluatingInterrupted, version := auth.version + 1)
  }

  function BoundAuth(auth: Authorization, runId: string): Authorization {
    auth.(activeRunId := Some(runId), status := Evaluating, version := auth.version + 1)
  }

  function SealedRun(run: EvaluationRun, hash: Digest, now: int): EvaluationRun {
    run.(status := Sealed, cohortHash := Some(hash), sealedAt := Some(now))
  }

  function ConsumedAuth(auth: Authorization, now: int): Authorization {
    auth.(status := Consumed, consumedAt := Some(now), version := auth.version + 1)
  }

  lemma SealShape(s: Repo, runId: string, owner: string, token: int, hash: Digest, artifact: Artifact, now: int)
    requires P.Owned(s, runId, owner, token, now, false).Success?
    ensures runId in s.runs && s.runs[runId].authorizationId in s.auths
    ensures var run, a := SealedRun(s.runs[runId], hash, now), s.runs[runId].authorizationId;
            P.Seal(s, runId, owner, token, Some(hash), artifact, now) ==
            Outcome(s.(artifacts := s.artifacts[hash := artifact], runs := s.runs[runId := run],
                       auths := s.auths[a := ConsumedAuth(s.auths[a], now)]), Success(run))
  {
  }

  lemma InterruptShape(s: Repo, runId: string, owner: string, token: int, now: int, terminal: bool)
    requires P.Owned(s, runId, owner, token, now, true).Success?
    ensures runId in s.runs && s.runs[runId].authorizationId in s.auths
    ensures var run, a := EndedRun(s.runs[runId], terminal), s.runs[runId].authorizationId;
            P.Interrupt(s, runId, owner, token, now, terminal) ==
            Outcome(s.(runs := s.runs[runId := run], auths := s.auths[a := EndedAuth(s.auths[a], terminal)]),
                    Success(run))
  {
  }

  class PostgresOosRunRepository {
    var authorizations: map<string, Row<Authorization>>
    var runs: map<string, Row<EvaluationRun>>
    var checkpoints: map<(string, string), Checkpoint>
    var artifacts: map<Digest, Artifact>
    var artifactOfRun: map<string, Digest> // the unique index on the artifact's run id

    ghost var view: Repo // the values in the tables

    /** Rows are stored under their primary key, and the view is what they hold. */
    ghost predicate Valid()
      reads this, authorizations.Values, runs.Values
    {
      && authorizations.Keys == view.auths.Keys
      && (forall a :: a in authorizations ==>
            authorizations[a].columns == view.auths[a] && view.auths[a].authorizationId == a)
      && runs.Keys == view.runs.Keys
      && (forall r :: r in runs ==> runs[r].columns == view.runs[r] && view.runs[r].runId == r)
      && checkpoints == view.checkpoints
      && artifacts == view.artifacts
    }

    /** The unique index agrees with the artifact table. */
    ghost predicate Indexed()
      reads this`artifacts, this`artifactOfRun
    {
      P.IndexOk(artifactOfRun, artifacts)
    }

    constructor ()
      ensures Indexed()
      ensures Valid() && view == Repo(map[], map[], map[], map[]) && artifactOfRun == map[]
    {
      authorizations, runs, checkpoints, artifacts, artifactOfRun := map[], map[], map[], map[], map[];
      view := Repo(map[], map[], map[], map[]);
    }

    /** Assigns the columns of a run row. */
    method WriteRun(run: EvaluationRun)
      requires Valid() && run.runId in runs
      modifies this`view, runs.Values
      ensures Valid()
      ensures view == old(view).(runs := old(view).runs[run.runId := run])
    {
      runs[run.runId].columns := run;
      view := view.(runs := view.runs[run.runId := run]);
    }

    /** Assigns the columns of an authorization row. */
    method WriteAuth(auth: Authorization)
      requires Valid() && auth.authorizationId in authorizations
      modifies this`view, authorizations.Values
      ensures Valid()
      ensures view == old(view).(auths := old(view).auths[auth.authorizationId := auth])
    {
      authorizations[auth.authorizationId].columns := auth;
      view := view.(auths := view.auths[auth.authorizationId := auth]);
    }

    /** Inserts a run row. */
    method InsertRun(run: EvaluationRun)
      requires Valid() && run.runId !in runs
      modifies this`view, this`runs
      ensures Valid()
      ensures view == old(view).(runs := old(view).runs[run.runId := run])
    {
      var row := new Row(run);
      runs := runs[run.runId := row];
      view := view.(runs := view.runs[run.runId := run]);
    }

    /** Assigns the columns of a run row and of its authorization row. */
    method Flush(run: EvaluationRun, auth: Authorization)
      requires Valid() && run.runId in runs && auth.authorizationId in authorizations
      modifies this`view, runs.Values, authorizations.Values
      ensures Valid()
      ensures view == old(view).(runs := old(view).runs[run.runId := run],
                                 auths := old(view).auths[auth.authorizationId := auth])
    {
      WriteRun(run);
      WriteAuth(auth);
    }

    /** Inserts a run row and assigns the columns of its authorization row. */
    method Insert(run: EvaluationRun, auth: Authorization)
      requires Valid() && run.runId !in runs && auth.authorizationId in authorizations
      modifies this`view, this`runs, authorizations.Values
      ensures Valid()
      ensures view == old(view).(runs := old(view).runs[run.runId := run],
                                 auths := old(view).auths[auth.authorizationId := auth])
    {
      InsertRun(run);
      WriteAuth(auth);
    }

    /** Inserts an artifact row. */
    method InsertArtifact(runId: string, hash: Digest, artifact: Artifact)
      requires Valid() && hash !in artifacts && runId !in artifactOfRun
      modifies this`view, this`artifacts, this`artifactOfRun
      ensures Valid()
      ensures artifacts == old(artifacts)[hash := artifact]
      ensures artifactOfRun == old(artifactOfRun)[runId := hash]
      ensures view == old(view).(artifacts := old(view).artifacts[hash := artifact])
    {
      artifacts := artifacts[hash := artifact];
      artifactOfRun := artifactOfRun[runId := hash];
      view := view.(artifacts := artifacts);
    }

    method SaveAuthorization(auth: Authorization) returns (r: Result<Authorization, Error>)
      requires Valid()
      modifies this`view, this`authorizations
      ensures Valid()
      ensures Outcome(view, r)
           == P.SaveAuthorization(old(view), auth.(activeRunId := None, consumedAt := None, version := 1))
    {
      if auth.authorizationId in authorizations {
        var row := authorizations[auth.authorizationId];
        if row.columns.IdentityHash() != auth.IdentityHash() {
          return Failure(IdentityError);
        }
        return Success(row.columns);
      }
      var row := new Row(auth.(activeRunId := None, consumedAt := None, version := 1));
      authorizations := authorizations[auth.authorizationId := row];
      view := P.SaveAuthorization(view, row.columns).repo;
      return Success(row.columns);
    }

    method InvalidateAuthorization(authId: string) returns (r: Result<Authorization, Error>)
      requires Valid()
      modifies this`view, authorizations.Values
      ensures Valid()
      ensures Outcome(view, r) == P.InvalidateAuthorization(old(view), authId)
    {
      if authId !in authorizations {
        return Failure(IdentityError);
      }
      var row := authorizations[authId];
      if !row.columns.status.Consumed? {
        row.columns := row.columns.(status := Invalidated, version := row.columns.version + 1);
        view := P.InvalidateAuthorization(view, authId).repo;
      }
      return Success(row.columns);
    }

    /** The branches of `start_or_resume`: the run row to be written, or the exception. */
    method NextRun(authId: string, runId: Option<string>, owner: string, lease: int, version: string, now: int,
                   newId: string)
      returns (r: Result<EvaluationRun, Error>)
      requires Valid()
      ensures r == P.StartOrResume(view, authId, runId, owner, lease, version, now, newId).result
    {
      if lease <= 0 {
        return Failure(ValueError);
      }
      if authId !in authorizations || authorizations[authId].columns.status in {Consumed, Invalidated} {
        return Failure(IdentityError);
      }
      var auth := authorizations[authId].columns;
      var active: Option<EvaluationRun> := None;
      if auth.activeRunId.Some? && auth.activeRunId.value in runs {
        active := Some(runs[auth.activeRunId.value].columns);
      }
      if active.Some? && runId.Some? && runId.value != active.value.runId {
        return Failure(LeaseError);
      }
      var id := newId;
      if runId.Some? && runId.value != "" {
        id := runId.value;
      } else if active.Some? {
        id := active.value.runId;
      }
      if active.Some? && active.value.version != version {
        return Failure(IdentityError);
      }
      if active.Some? && active.value.leaseExpiresAt > now
          && !(active.value.runId == id && active.value.owner == owner) {
        return Failure(LeaseError);
      }
      var run: EvaluationRun;
      if active.Some? && active.value.runId == id && active.value.owner == owner && active.value.leaseExpiresAt > now {
        run := active.value.(status := Running, leaseExpiresAt := now + lease);
      } else if active.Some? && active.value.runId == id {
        run := active.value.(owner := owner, token := active.value.token + 1, status := Running,
                             leaseExpiresAt := now + lease);
      } else {
        run := EvaluationRun(id, authId, owner, 1, Running, now + lease, version, None, None);
      }
      if !RunRecordOk(run) {
        return Failure(ValueError);
      }
      return Success(run);
    }

    /** What the transaction will store, or why it raises; nothing is written yet. */
    method PlanStart(authId: string, runId: Option<string>, owner: string, lease: int, version: string, now: int,
                     newId: string)
      returns (r: Result<EvaluationRun, Error>)
      requires Valid()
      ensures var spec := D.StartOrResume(view, authId, runId, owner, lease, version, now, newId);
              && r == spec.result
              && (r.Success? ==>
                    && authId in authorizations
                    && spec.repo == view.(runs := view.runs[r.value.runId := r.value],
                                          auths := view.auths[authId := BoundAuth(view.auths[authId], r.value.runId)]))
    {
      r := NextRun(authId, runId, owner, lease, version, now, newId);
      hide P.StartOrResume;
      if r.Failure? {
        return;
      }
      P.StartShape(view, authId, runId, owner, lease, version, now, newId);
      var run, auth := r.value, authorizations[authId].columns;
      if auth.activeRunId.None? || auth.activeRunId.value !in runs {
        if run.runId in runs {
          return Failure(IntegrityError);
        }
      }
    }

    method StartOrResume(authId: string, runId: Option<string>, owner: string, lease: int, version: string, now: int,
                         newId: string)
      returns (r: Result<EvaluationRun, Error>)
      requires Valid()
      modifies this`view, this`runs, authorizations.Values, runs.Values
      ensures Valid()
      ensures Outcome(view, r) == D.StartOrResume(old(view), authId, runId, owner, lease, version, now, newId)
    {
      P.StartRefused(view, authId, runId, owner, lease, version, now, newId);
      hide P.StartOrResume;
      hide D.RunIdCollides;
      r := PlanStart(authId, runId, owner, lease, version, now, newId);
      if r.Success? {
        StoreStarted(r.value, authId);
      }
    }

    /** The writes of `start_or_resume`: the run row is updated or inserted, and its authorization bound. */
    method StoreStarted(run: EvaluationRun, authId: string)
      requires Valid() && authId in authorizations
      modifies this`view, this`runs, runs.Values, authorizations.Values
      ensures Valid()
      ensures var s := old(view);
              view == s.(runs := s.runs[run.runId := run],
                         auths := s.auths[authId := BoundAuth(s.auths[authId], run.runId)])
    {
      var bound := BoundAuth(authorizations[authId].columns, run.runId);
      if run.runId in runs {
        Flush(run, bound);
      } else {
        Insert(run, bound);
      }
    }

    method Owned(runId: string, owner: string, token: int, now: int, allowExpired: bool)
      returns (r: Result<Row<EvaluationRun>, Error>)
      requires Valid()
      ensures var spec := P.Owned(view, runId, owner, token, now, allowExpired);
              && (r.Failure? <==> spec.Failure?)
              && (r.Failure? ==> r.error == spec.error)
              && (r.Success? ==> runId in runs && r.value == runs[runId])
    {
      if runId !in runs || runs[runId].columns.owner != owner || runs[runId].columns.token != token {
        return Failure(LeaseError);
      }
      var row := runs[runId];
      var authId := row.columns.authorizationId;
      if authId !in authorizations || authorizations[authId].columns.activeRunId != Some(runId) {
        return Failure(LeaseError);
      }
      if !allowExpired && row.columns.leaseExpiresAt <= now {
        return Failure(LeaseError);
      }
      return Success(row);
    }

    method Renew(runId: string, owner: string, token: int, lease: int, now: int)
      returns (r: Result<EvaluationRun, Error>)
      requires Valid()
      modifies this`view, runs.Values
      ensures Valid()
      ensures Outcome(view, r) == P.Renew(old(view), runId, owner, token, lease, now)
    {
      if lease <= 0 {
        return Failure(ValueError);
      }
      var owned := Owned(runId, owner, token, now, false);
      if owned.Failure? {
        return Failure(owned.error);
      }
      var row := owned.value;
      row.columns := row.columns.(status := Running, leaseExpiresAt := now + lease);
      view := P.Renew(view, runId, owner, token, lease, now).repo;
      return Success(row.columns);
    }

    /** Unlike the in-memory repository, this one does not ask whether the run is terminal. */
    method PutCheckpoint(cp: Checkpoint, owner: string, token: int, now: int) returns (r: Result<Checkpoint, Error>)
      requires Valid()
      modifies this`view, this`checkpoints
      ensures Valid()
      ensures Outcome(view, r) == D.PutCheckpoint(old(view), cp, owner, token, now)
    {
      var owned := Owned(cp.runId, owner, token, now, false);
      if owned.Failure? {
        return Failure(owned.error);
      }
      var key := (cp.runId, cp.candidateId);
      if key in checkpoints {
        var row := checkpoints[key];
        if row.inputHash != cp.inputHash || row.resultHash != cp.resultHash {
          return Failure(CheckpointConflict);
        }
        return Success(row);
      }
      checkpoints := checkpoints[key := cp];
      view := StoreCheckpoint(view, cp).repo;
      return Success(cp);
    }

    method Interrupt(runId: string, owner: string, token: int, now: int, terminal: bool)
      returns (r: Result<EvaluationRun, Error>)
      requires Valid()
      modifies this`view, runs.Values, authorizations.Values
      ensures Valid()
      ensures Outcome(view, r) == P.Interrupt(old(view), runId, owner, token, now, terminal)
    {
      var owned := Owned(runId, owner, token, now, true);
      if owned.Failure? {
        return Failure(owned.error);
      }
      InterruptShape(view, runId, owner, token, now, terminal);
      var row := owned.value;
      var authRow := authorizations[row.columns.authorizationId];
      r := EndRun(runId, row, authRow, terminal);
    }

    /** The two assignments of `interrupt`. */
    method EndRun(runId: string, row: Row<EvaluationRun>, authRow: Row<Authorization>, terminal: bool)
      returns (r: Result<EvaluationRun, Error>)
      requires Valid() && runId in runs && runs[runId] == row
      requires row.columns.authorizationId in authorizations && authorizations[row.columns.authorizationId] == authRow
      modifies this`view, runs.Values, authorizations.Values
      ensures Valid()
      ensures var s := old(view);
              var run, a := EndedRun(s.runs[runId], terminal), s.runs[runId].authorizationId;
              r == Success(run)
              && view == s.(runs := s.runs[runId := run], auths := s.auths[a := EndedAuth(s.auths[a], terminal)])
    {
      var run, auth := EndedRun(row.columns, terminal), EndedAuth(authRow.columns, terminal);
      Flush(run, auth);
      return Success(run);
    }

    /** The writes of `seal` for a run whose artifact is new. */
    method StoreSealed(runId: string, hash: Digest, artifact: Artifact, now: int) returns (run: EvaluationRun)
      requires Valid() && runId in runs && runs[runId].columns.authorizationId in authorizations
      requires hash !in artifacts && runId !in artifactOfRun
      modifies this`view, this`artifacts, this`artifactOfRun, runs.Values, authorizations.Values
      ensures Valid()
      ensures artifacts == old(artifacts)[hash := artifact]
      ensures artifactOfRun == old(artifactOfRun)[runId := hash]
      ensures var s := old(view);
              var a := s.runs[runId].authorizationId;
              && run == SealedRun(s.runs[runId], hash, now)
              && view == s.(artifacts := s.artifacts[hash := artifact], runs := s.runs[runId := run],
                            auths := s.auths[a := ConsumedAuth(s.auths[a], now)])
    {
      run := SealedRun(runs[runId].columns, hash, now);
      var auth := ConsumedAuth(authorizations[run.authorizationId].columns, now);
      InsertArtifact(runId, hash, artifact);
      Flush(run, auth);
    }

    /** A call of `seal` that breaks no unique key. */
    method Consume(runId: string, owner: string, token: int, hash: Digest, artifact: Artifact, now: int)
      returns (run: EvaluationRun)
      requires Valid() && P.Owned(view, runId, owner, token, now, false).Success?
      requires hash !in artifacts && runId !in artifactOfRun
      modifies this`view, this`artifacts, this`artifactOfRun, runs.Values, authorizations.Values
      ensures Valid()
      ensures Outcome(view, Success(run)) == P.Seal(old(view), runId, owner, token, Some(hash), artifact, now)
      ensures artifacts == old(artifacts)[hash := artifact]
      ensures artifactOfRun == old(artifactOfRun)[runId := hash]
    {
      SealShape(view, runId, owner, token, hash, artifact, now);
      hide P.Owned;
      hide P.Seal;
      run := StoreSealed(runId, hash, artifact, now);
    }

    /** A second artifact for the run or under the hash violates the database's unique keys. */
    method Seal(runId: string, owner: string, token: int, hash: Option<Digest>, artifact: Artifact, now: int)
      returns (r: Result<EvaluationRun, Error>)
      requires Valid()
      modifies this`view, this`artifacts, this`artifactOfRun, runs.Values, authorizations.Values
      ensures Valid()
      ensures Outcome(view, r) == D.Seal(old(view), old(artifactOfRun), runId, owner, token, hash, artifact, now)
      ensures artifactOfRun == D.IndexAfterSeal(old(artifactOfRun), runId, hash, Outcome(view, r))
      ensures old(Indexed()) && (hash.Some? ==> hash.value.CohortDigest? && hash.value.runId == runId) ==> Indexed()
    {
      var owned := Owned(runId, owner, token, now, false);
      if owned.Failure? {
        return Failure(owned.error);
      }
      if hash.None? {
        return Failure(IdentityError);
      }
      if hash.value in artifacts || runId in artifactOfRun {
        return Failure(IntegrityError);
      }
      if Indexed() && hash.value.CohortDigest? && hash.value.runId == runId {
        P.IndexGrows(artifactOfRun, artifacts, hash.value, artifact);
      }
      var run := Consume(runId, owner, token, hash.value, artifact, now);
      return Success(run);
    }
  }
}
