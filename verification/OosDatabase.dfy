/**
 * The transitions of the database repository on values: those of `OosProtocol`, except where a unique key
 * or a missing check makes a difference.
 */
module OosDatabase {
  import opened Wrappers
  import opened OosRun
  import opened OosProtocol

  /** The new run row would violate the primary key; a dictionary overwrites the old run instead. */
  predicate RunIdCollides(s: Repo, authId: string, runId: Option<string>, owner: string, lease: int, version: string,
                          now: int, newId: string)
  {
    && OosProtocol.StartOrResume(s, authId, runId, owner, lease, version, now, newId).result.Success?
    && authId in s.auths && ActiveRun(s, s.auths[authId]).None?
    && EffectiveRunId(runId, None, newId) in s.runs
  }

  function StartOrResume(s: Repo, authId: string, runId: Option<string>, owner: string, lease: int, version: string,
                         now: int, newId: string): Outcome<EvaluationRun>
  {
    if RunIdCollides(s, authId, runId, owner, lease, version, now, newId) then Outcome(s, Failure(IntegrityError))
    else OosProtocol.StartOrResume(s, authId, runId, owner, lease, version, now, newId)
  }

  /** A terminal run is not refused. */
  function PutCheckpoint(s: Repo, cp: Checkpoint, owner: string, token: int, now: int): Outcome<Checkpoint> {
    var owned := Owned(s, cp.runId, owner, token, now, false);
    if owned.Success? && owned.value.Terminal() then StoreCheckpoint(s, cp)
    else OosProtocol.PutCheckpoint(s, cp, owner, token, now)
  }

  /** A second artifact for the run or under the hash violates a unique key; `index` lists artifacts by run id. */
  function Seal(s: Repo, index: map<string, Digest>, runId: string, owner: string, token: int, hash: Option<Digest>,
                artifact: Artifact, now: int): Outcome<EvaluationRun>
  {
    var out := OosProtocol.Seal(s, runId, owner, token, hash, artifact, now);
    if out.result == Failure(RunError) then Outcome(s, Failure(IdentityError))
    else if out.result.Success? && hash.Some? && (hash.value in s.artifacts || runId in index) then
      Outcome(s, Failure(IntegrityError))
    else out
  }

  /** The unique index after that transaction. */
  function IndexAfterSeal(index: map<string, Digest>, runId: string, hash: Option<Digest>, out: Outcome<EvaluationRun>)
    : map<string, Digest>
  {
    if out.result.Success? && hash.Some? then index[runId := hash.value] else index
  }
}
