/**
 * Records and canonical hashes of the Final-OOS run.
 *
 * A SHA-256 digest is modelled by the material that was hashed, so two digests are equal exactly
 * when their materials are. A result dictionary is its canonical JSON text.
 */
module OosRun {
  import opened Wrappers
  import opened Sequences
  import Text

  type Payload = string

  datatype Error =
    | ValueError | RuntimeError | RunError | LeaseError | IdentityError | CheckpointConflict
    | IntegrityError // a primary-key violation reported by the database

  datatype AuthorizationStatus = Authorized | Evaluating | EvaluatingInterrupted | Consumed | Invalidated

  datatype RunStatus = Started | Running | Interrupted | Sealing | Sealed | FailedTerminal

  datatype CheckpointStatus = Pending | InProgress | Completed | FailedRetryable | FailedForever

  datatype Digest =
    | CandidateSetDigest(ids: seq<string>)
    | IdentityDigest(experimentId: string, candidateSetHash: Digest, datasetRefHash: string,
                     marketSnapshotId: string, contentRefHash: Option<string>)
    | InputDigest(id: string, datasetRef: Option<string>, marketSnapshot: Option<string>,
                  contentRef: Option<Option<string>>, material: string)
    | ResultDigest(payload: Payload)
    | CohortDigest(identity: Digest, runId: string, version: string, dataset: string,
                   market: string, content: Option<string>, rows: seq<Row>)

  /** One `artifact_rows` entry. */
  datatype Row = Row(candidateId: string, inputHash: Digest, resultHash: Option<Digest>, result: Option<Payload>)

  /** The artifact dictionary handed to `seal`. */
  datatype Artifact = Artifact(authorizationId: string, datasetRefHash: string, marketSnapshotId: string,
                               contentRefHash: Option<string>, version: string, rows: seq<Row>)

  datatype Authorization = Authorization(
    authorizationId: string, experimentId: string, candidateSetHash: Digest, datasetRefHash: string,
    marketSnapshotId: string, contentRefHash: Option<string>, status: AuthorizationStatus,
    activeRunId: Option<string>, consumedAt: Option<int>, version: int)
  {
    function IdentityHash(): Digest {
      IdentityDigest(experimentId, candidateSetHash, datasetRefHash, marketSnapshotId, contentRefHash)
    }

    /** Neither CONSUMED nor INVALIDATED. */
    predicate Available() {
      !status.Consumed? && !status.Invalidated?
    }
  }

  datatype EvaluationRun = EvaluationRun(
    runId: string, authorizationId: string, owner: string, token: nat, status: RunStatus,
    leaseExpiresAt: int, version: string, cohortHash: Option<Digest>, sealedAt: Option<int>)
  {
    predicate Terminal() {
      status.Sealed? || status.FailedTerminal?
    }
  }

  datatype Checkpoint = Checkpoint(
    runId: string, candidateId: string, inputHash: Digest, status: CheckpointStatus,
    result: Option<Payload>, resultHash: Option<Digest>)

  /** An entry of the cohort; `excluded` holds the keys that `_input_hash` leaves out. */
  datatype Candidate = Candidate(
    id: string, datasetRef: Option<string>, marketSnapshot: Option<string>,
    contentRef: Option<Option<string>>, material: string, excluded: string)

  /** The arguments of `authorize`. */
  datatype Request = Request(experimentId: string, candidateSetHash: Digest, datasetRefHash: string,
                             marketSnapshotId: string, contentRefHash: Option<string>)

  /** `OosAuthorization(...)` as `authorize` builds it; blank identities raise. */
  function NewAuthorization(q: Request): Result<Authorization, Error> {
    if Text.Blank(q.experimentId) || Text.Blank(q.datasetRefHash) || Text.Blank(q.marketSnapshotId) then
      Failure(ValueError)
    else
      Success(Authorization("oosa-" + q.experimentId, q.experimentId, q.candidateSetHash, q.datasetRefHash,
                            q.marketSnapshotId, q.contentRefHash, Authorized, None, None, 1))
  }

  function CompletedCheckpoint(runId: string, candidateId: string, inputHash: Digest, result: Payload): Checkpoint {
    Checkpoint(runId, candidateId, inputHash, Completed, Some(result), Some(ResultDigest(result)))
  }

  function InputHash(c: Candidate): Digest {
    InputDigest(c.id, c.datasetRef, c.marketSnapshot, c.contentRef, c.material)
  }

  /** Equal in everything but the excluded keys. */
  predicate SameInput(c: Candidate, d: Candidate) {
    c.(excluded := "") == d.(excluded := "")
  }

  /** The input hash tells any two inputs apart, and never looks at the excluded keys. */
  lemma InputHashIdentifiesInputs(c: Candidate, d: Candidate)
    ensures InputHash(c) == InputHash(d) <==> SameInput(c, d)
  {
  }

  /** The identity of an authorization is its experiment, candidate set, dataset, market and content. */
  lemma IdentityHashIdentifies(a: Authorization, b: Authorization)
    ensures a.IdentityHash() == b.IdentityHash() <==>
              && a.experimentId == b.experimentId && a.candidateSetHash == b.candidateSetHash
              && a.datasetRefHash == b.datasetRefHash && a.marketSnapshotId == b.marketSnapshotId
              && a.contentRefHash == b.contentRefHash
  {
  }

  function Ids(candidates: seq<Candidate>): (r: seq<string>)
    ensures |r| == |candidates| && forall i :: 0 <= i < |r| ==> r[i] == candidates[i].id
  {
    seq(|candidates|, i requires 0 <= i < |candidates| => candidates[i].id)
  }

  predicate WellFormedIds(ids: seq<string>) {
    && ids != []
    && (forall i :: 0 <= i < |ids| ==> !Text.Blank(ids[i]))
    && Distinct(ids)
  }

  function SortIds(ids: seq<string>): seq<string> {
    Text.Sorted(ids, (id: string) => id)
  }

  function CanonicalCandidateSetHash(ids: seq<string>): Result<Digest, Error> {
    if WellFormedIds(ids) then Success(CandidateSetDigest(SortIds(ids))) else Failure(ValueError)
  }

  /** A candidate set is refused exactly when it is empty, has a blank id, or has an id twice. */
  lemma CandidateSetRefusedIff(ids: seq<string>)
    ensures CanonicalCandidateSetHash(ids).Failure? <==>
              || ids == []
              || (exists i :: 0 <= i < |ids| && Text.Blank(ids[i]))
              || exists i, j :: 0 <= i < j < |ids| && ids[i] == ids[j]
  {
  }

  /** Two well-formed cohorts hash alike exactly when one is a rearrangement of the other. */
  lemma CandidateSetHashIdentifiesTheSet(a: seq<string>, b: seq<string>)
    requires WellFormedIds(a) && WellFormedIds(b)
    ensures CanonicalCandidateSetHash(a) == CanonicalCandidateSetHash(b) <==> multiset(a) == multiset(b)
  {
    var key := (id: string) => id;
    if multiset(a) == multiset(b) {
      Text.SortedForgetsOrder(a, b, key);
    } else {
      assert multiset(SortIds(a)) == multiset(a) && multiset(SortIds(b)) == multiset(b);
    }
  }

  function RowKey(row: Row): string {
    row.candidateId
  }

  function SortRows(rows: seq<Row>): seq<Row> {
    Text.Sorted(rows, RowKey)
  }

  predicate DistinctRows(rows: seq<Row>) {
    forall i, j :: 0 <= i < j < |rows| ==> rows[i].candidateId != rows[j].candidateId
  }

  /** `len(ids) != len(set(ids))` over the sorted entries. */
  function CanonicalCohortHash(rows: seq<Row>, auth: Authorization, run: EvaluationRun): Result<Digest, Error> {
    var entries := SortRows(rows);
    if DistinctRows(entries) then
      Success(CohortDigest(auth.IdentityHash(), run.runId, run.version, auth.datasetRefHash,
                           auth.marketSnapshotId, auth.contentRefHash, entries))
    else Failure(ValueError)
  }

  lemma KeysAreDistinct(rows: seq<Row>)
    ensures DistinctRows(rows) <==> Text.DistinctKeys(rows, RowKey)
  {
    if DistinctRows(rows) {
      forall i, j | 0 <= i < j < |rows| ensures RowKey(rows[i]) != RowKey(rows[j]) {
      }
    } else {
      var i, j :| 0 <= i < j < |rows| && rows[i].candidateId == rows[j].candidateId;
      assert RowKey(rows[i]) == RowKey(rows[j]);
    }
  }

  lemma SortedRowsAreDistinct(rows: seq<Row>)
    requires DistinctRows(rows)
    ensures DistinctRows(SortRows(rows))
  {
    KeysAreDistinct(rows);
    Text.SortedKeepsDistinct(rows, RowKey);
    KeysAreDistinct(SortRows(rows));
  }

  /** Distinct rows always hash, and two row lists hash alike exactly when one rearranges the other. */
  lemma CohortHashIdentifiesRows(a: seq<Row>, b: seq<Row>, auth: Authorization, run: EvaluationRun)
    requires DistinctRows(a) && DistinctRows(b)
    ensures CanonicalCohortHash(a, auth, run).Success? && CanonicalCohortHash(b, auth, run).Success?
    ensures CanonicalCohortHash(a, auth, run) == CanonicalCohortHash(b, auth, run) <==> multiset(a) == multiset(b)
  {
    SortedRowsAreDistinct(a);
    SortedRowsAreDistinct(b);
    hide DistinctRows;
    if multiset(a) == multiset(b) {
      KeysAreDistinct(a);
      Text.SortedForgetsOrder(a, b, RowKey);
    } else {
      assert multiset(SortRows(a)) == multiset(a) && multiset(SortRows(b)) == multiset(b);
    }
  }

  /** The digest carries the run id, and of the records it depends only on the identities. */
  lemma CohortHashReads(rows: seq<Row>, a: Authorization, x: EvaluationRun, b: Authorization, y: EvaluationRun)
    requires a.IdentityHash() == b.IdentityHash() && x.runId == y.runId && x.version == y.version
    ensures CanonicalCohortHash(rows, a, x) == CanonicalCohortHash(rows, b, y)
    ensures CanonicalCohortHash(rows, a, x).Success? ==>
              CanonicalCohortHash(rows, a, x).value.CohortDigest?
                  && CanonicalCohortHash(rows, a, x).value.runId == x.runId
  {
  }

  /**
   * Two cohorts hash alike exactly when they have the same rows up to order, the same run id and version, and
   * authorizations of the same identity.
   */
  lemma CohortHashIdentifies(a: seq<Row>, auth: Authorization, run: EvaluationRun, b: seq<Row>, other: Authorization,
                             next: EvaluationRun)
    requires DistinctRows(a) && DistinctRows(b)
    ensures CanonicalCohortHash(a, auth, run) == CanonicalCohortHash(b, other, next) <==>
              && multiset(a) == multiset(b) && run.runId == next.runId && run.version == next.version
              && auth.IdentityHash() == other.IdentityHash()
  {
    CohortHashIdentifiesRows(a, b, auth, run);
    SortedRowsAreDistinct(b);
    if auth.IdentityHash() == other.IdentityHash() && run.runId == next.runId && run.version == next.version {
      CohortHashReads(b, auth, run, other, next);
    }
    hide DistinctRows;
    hide SortRows;
  }
}
