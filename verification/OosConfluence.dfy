/**
 * What a sealed cohort contains: values of the evaluator, the same for every schedule, and always
 * reachable again after any history of crashes and takeovers.
 */
module OosConfluence {
  import opened Wrappers
  import opened Sequences
  import opened OosRun
  import opened OosProtocol
  import opened OosSystem
  import opened OosSafety
  import opened OosTheorems

  // ------------------------------------------------------------------ provenance

  /** The action starts a call for authorization `a` with candidate `c`, whose evaluator has value `p` on it. */
  ghost predicate Evaluates(action: Action, c: Candidate, a: string, p: Payload) {
    && action.Spawn? && action.job.authId == a
    && c in action.job.candidates && action.job.evaluator(c) == p
  }

  /** Some call for authorization `a` had evaluator value `p` on a candidate of its own with input hash `h`. */
  ghost predicate Produced(schedule: seq<Action>, a: string, h: Digest, p: Payload) {
    exists k, c :: 0 <= k < |schedule| && Evaluates(schedule[k], c, a, p) && InputHash(c) == h
  }

  /** Some call for `a` evaluated to `p` a candidate of its own that equals `d` but for the excluded keys. */
  ghost predicate EvaluatedOn(schedule: seq<Action>, a: string, d: Candidate, p: Payload) {
    exists k, c :: 0 <= k < |schedule| && Evaluates(schedule[k], c, a, p) && SameInput(c, d)
  }

  lemma ProducedOn(schedule: seq<Action>, a: string, d: Candidate, p: Payload)
    requires Produced(schedule, a, InputHash(d), p)
    ensures EvaluatedOn(schedule, a, d, p)
  {
    var k, c :| 0 <= k < |schedule| && Evaluates(schedule[k], c, a, p) && InputHash(c) == InputHash(d);
    InputHashIdentifiesInputs(c, d);
  }

  ghost function ProducedBy(schedule: seq<Action>): Relation {
    (a: string, h: Digest, p: Payload) => Produced(schedule, a, h, p)
  }

  lemma {:induction false} EveryEvaluatorIsAllowed(s: System, schedule: seq<Action>, k: nat)
    requires k <= |schedule| && AdmissibleRun(s, schedule[k..], AnyResult)
    ensures AdmissibleRun(s, schedule[k..], ProducedBy(schedule))
    decreases |schedule| - k
  {
    if k < |schedule| {
      var a := schedule[k];
      assert schedule[k..][0] == a && schedule[k..][1..] == schedule[k + 1..];
      if a.Spawn? {
        var job := a.job;
        forall i | 0 <= i < |job.candidates|
          ensures ProducedBy(schedule)(job.authId, InputHash(job.candidates[i]), job.evaluator(job.candidates[i]))
        {
          var c := job.candidates[i];
          assert Evaluates(schedule[k], c, job.authId, job.evaluator(c));
        }
      }
      EveryEvaluatorIsAllowed(Step(s, a), schedule, k + 1);
    }
  }

  /** The checkpoint's result is a value of an evaluator on a candidate with the checkpoint's id. */
  ghost predicate CheckpointExplained(schedule: seq<Action>, r: Repo, key: (string, string)) {
    && key in r.checkpoints && key.0 in r.runs && r.checkpoints[key].result.Some?
    && exists k, c: Candidate :: 0 <= k < |schedule| && c.id == key.1
                      && Evaluates(schedule[k], c, r.runs[key.0].authorizationId, r.checkpoints[key].result.value)
  }

  /** A row carries the id of its candidate and a result that was evaluated on that very input. */
  ghost predicate RowExplained(schedule: seq<Action>, e: Seal, j: nat) {
    && j < |e.rows| == |e.job.candidates| == |e.results|
    && e.rows[j] == CohortRow(e.job.candidates[j], e.results[j])
    && e.rows[j].candidateId == e.job.candidates[j].id && e.rows[j].result == Some(e.results[j])
    && EvaluatedOn(schedule, e.job.authId, e.job.candidates[j], e.results[j])
  }

  /** What a live worker has gathered was evaluated on its own candidates, position by position. */
  ghost predicate ResultsExplained(schedule: seq<Action>, w: Worker) {
    w.Active? ==>
      && |w.results| <= |w.job.candidates|
      && forall j :: 0 <= j < |w.results| ==> EvaluatedOn(schedule, w.job.authId, w.job.candidates[j], w.results[j])
  }

  lemma CheckpointIsExplained(schedule: seq<Action>, r: Repo, key: (string, string))
    requires CheckpointOk(r, key, ProducedBy(schedule))
    ensures CheckpointExplained(schedule, r, key)
  {
    var cp := r.checkpoints[key];
    assert Produced(schedule, r.runs[key.0].authorizationId, cp.inputHash, cp.result.value);
    var k, c :| 0 <= k < |schedule| && InputHash(c) == cp.inputHash
                && Evaluates(schedule[k], c, r.runs[key.0].authorizationId, cp.result.value);
    assert c.id == key.1;
  }

  lemma ResultIsExplained(schedule: seq<Action>, r: Repo, job: Job, runId: string, j: nat, result: Payload)
    requires j < |job.candidates| && Checkpointed(r, job, runId, j, result)
    requires RepoOk(r, ProducedBy(schedule)) && runId in r.runs && r.runs[runId].authorizationId == job.authId
    ensures EvaluatedOn(schedule, job.authId, job.candidates[j], result)
  {
    assert CheckpointOk(r, (runId, job.candidates[j].id), ProducedBy(schedule));
    ProducedOn(schedule, job.authId, job.candidates[j], result);
  }

  /**
   * Provenance. Whatever the evaluators and the interleaving, every stored checkpoint is a value that the
   * evaluator of a call for the run's authorization has on a candidate of that call with the checkpoint's id.
   * And every result that a live worker has gathered, and every row of every sealed cohort, was evaluated on
   * a candidate that equals the one at its position in everything but the excluded keys.
   */
  lemma EveryRowWasEvaluated(schedule: seq<Action>)
    requires AdmissibleRun(Init, schedule, AnyResult)
    ensures var s := Exec(Init, schedule);
            && (forall k :: k in s.repo.checkpoints ==> CheckpointExplained(schedule, s.repo, k))
            && (forall p :: p in s.workers ==> ResultsExplained(schedule, s.workers[p]))
            && (forall i, j :: 0 <= i < |s.seals| && 0 <= j < |s.seals[i].rows| ==>
                  RowExplained(schedule, s.seals[i], j))
  {
    assert schedule[0..] == schedule;
    EveryEvaluatorIsAllowed(Init, schedule, 0);
    InitInv(ProducedBy(schedule));
    RunKeepsInv(Init, schedule, ProducedBy(schedule));
    hide Exec;
    hide AdmissibleRun;
    hide ProducedBy;
    hide EvaluatedOn;
    var s := Exec(Init, schedule);
    forall k | k in s.repo.checkpoints ensures CheckpointExplained(schedule, s.repo, k) {
      assert CheckpointOk(s.repo, k, ProducedBy(schedule));
      CheckpointIsExplained(schedule, s.repo, k);
    }
    forall p | p in s.workers ensures ResultsExplained(schedule, s.workers[p]) {
      WorkerResults(schedule, s, p);
    }
    forall i, j | 0 <= i < |s.seals| && 0 <= j < |s.seals[i].rows| ensures RowExplained(schedule, s.seals[i], j) {
      var e := s.seals[i];
      assert SealOk(s.repo, e);
      assert Checkpointed(s.repo, e.job, e.run.runId, j, e.results[j]);
      ResultIsExplained(schedule, s.repo, e.job, e.run.runId, j, e.results[j]);
    }
  }

  lemma WorkerResults(schedule: seq<Action>, s: System, p: string)
    requires Inv(s, ProducedBy(schedule)) && p in s.workers
    ensures ResultsExplained(schedule, s.workers[p])
  {
    var w := s.workers[p];
    assert WorkerOk(s.repo, w);
    hide ProducedBy;
    hide EvaluatedOn;
    if w.Active? && |w.results| > 0 {
      assert ResultsOk(s.repo, w.job, w.run.runId, w.results);
      forall j | 0 <= j < |w.results| ensures EvaluatedOn(schedule, w.job.authId, w.job.candidates[j], w.results[j]) {
        assert Checkpointed(s.repo, w.job, w.run.runId, j, w.results[j]);
        ResultIsExplained(schedule, s.repo, w.job, w.run.runId, j, w.results[j]);
      }
    }
  }

  // ------------------------------------------------------------------ confluence

  /**
   * Every evaluator of a call for authorization `x` has, on the candidates it is given, the value of one
   * function of the hashed input. It may read excluded keys such as a lazy loader, as long as they determine
   * the same value. Calls for other authorizations may evaluate anything.
   */
  ghost function GraphOf(x: string, g: Digest -> Payload): Relation {
    (a: string, h: Digest, p: Payload) => a == x ==> p == g(h)
  }

  function InputHashes(candidates: seq<Candidate>): (r: seq<Digest>)
    ensures |r| == |candidates|
  {
    seq(|candidates|, i requires 0 <= i < |candidates| => InputHash(candidates[i]))
  }

  /** The row of an evaluation that was never interrupted. */
  function UninterruptedRow(h: Digest, g: Digest -> Payload): Row {
    Row(if h.InputDigest? then h.id else "", h, Some(ResultDigest(g(h))), Some(g(h)))
  }

  function UninterruptedRows(hashes: seq<Digest>, g: Digest -> Payload): (r: seq<Row>)
    ensures |r| == |hashes|
  {
    seq(|hashes|, i requires 0 <= i < |hashes| => UninterruptedRow(hashes[i], g))
  }

  /** A sealed cohort is the uninterrupted one, in the sealing worker's candidate order. */
  lemma SealedCohortIsUninterrupted(schedule: seq<Action>, x: string, g: Digest -> Payload, i: nat)
    requires AdmissibleRun(Init, schedule, GraphOf(x, g))
    requires i < |Exec(Init, schedule).seals| && Exec(Init, schedule).seals[i].job.authId == x
    ensures var s := Exec(Init, schedule);
            var e := s.seals[i];
            && e.rows == UninterruptedRows(InputHashes(e.job.candidates), g)
            && |e.results| == |e.job.candidates|
            && (forall j :: 0 <= j < |e.results| ==> e.results[j] == g(InputHash(e.job.candidates[j])))
            && DistinctRows(e.rows)
            && SealOk(s.repo, e)
  {
    InitInv(GraphOf(x, g));
    RunKeepsInv(Init, schedule, GraphOf(x, g));
    var s := Exec(Init, schedule);
    var e := s.seals[i];
    assert SealOk(s.repo, e);
    forall j | 0 <= j < |e.results| ensures e.results[j] == g(InputHash(e.job.candidates[j])) {
      assert Checkpointed(s.repo, e.job, e.run.runId, j, e.results[j]);
      assert CheckpointOk(s.repo, (e.run.runId, e.job.candidates[j].id), GraphOf(x, g));
    }
    RowsDistinct(e.job, s.repo.auths[e.job.authId], e.results, e.rows);
  }

  lemma RowsWithout(b: seq<Digest>, g: Digest -> Payload, k: nat)
    requires k < |b|
    ensures UninterruptedRows(Without(b, k), g) == Without(UninterruptedRows(b, g), k)
  {
  }

  lemma {:induction false} MapKeepsMultiset(a: seq<Digest>, b: seq<Digest>, g: Digest -> Payload)
    requires multiset(a) == multiset(b)
    ensures multiset(UninterruptedRows(a, g)) == multiset(UninterruptedRows(b, g))
    decreases |a|
  {
    SameLength(a, b);
    if a != [] {
      assert a[0] in multiset(b);
      var k :| 0 <= k < |b| && b[k] == a[0];
      WithoutMultiset(a, 0);
      WithoutMultiset(b, k);
      MapKeepsMultiset(Without(a, 0), Without(b, k), g);
      RowsWithout(a, g, 0);
      RowsWithout(b, g, k);
      WithoutMultiset(UninterruptedRows(a, g), 0);
      WithoutMultiset(UninterruptedRows(b, g), k);
    }
  }

  /**
   * Confluence. Two runs of the protocol, under any two schedules, that seal the same run id for the
   * same authorization identity and evaluator version over the same inputs store the same rows up to
   * order, and the same cohort hash.
   */
  lemma SealedCohortsAgree(a: seq<Action>, b: seq<Action>, x: string, g: Digest -> Payload, i: nat, j: nat)
    requires AdmissibleRun(Init, a, GraphOf(x, g)) && AdmissibleRun(Init, b, GraphOf(x, g))
    requires i < |Exec(Init, a).seals| && j < |Exec(Init, b).seals|
    requires var e, f := Exec(Init, a).seals[i], Exec(Init, b).seals[j];
             && e.job.authId == x && f.job.authId == x
             && e.identity == f.identity && e.run.runId == f.run.runId && e.run.version == f.run.version
             && multiset(InputHashes(e.job.candidates)) == multiset(InputHashes(f.job.candidates))
    ensures var e, f := Exec(Init, a).seals[i], Exec(Init, b).seals[j];
            multiset(e.rows) == multiset(f.rows) && e.hash == f.hash
  {
    var s, t := Exec(Init, a), Exec(Init, b);
    var e, f := s.seals[i], t.seals[j];
    SealedCohortIsUninterrupted(a, x, g, i);
    SealedCohortIsUninterrupted(b, x, g, j);
    MapKeepsMultiset(InputHashes(e.job.candidates), InputHashes(f.job.candidates), g);
    InitInv(GraphOf(x, g));
    RunKeepsInv(Init, a, GraphOf(x, g));
    RunKeepsInv(Init, b, GraphOf(x, g));
    SameHash(s.repo, t.repo, e, f, GraphOf(x, g));
  }

  lemma SameHash(r: Repo, t: Repo, x: Seal, y: Seal, allowed: Relation)
    requires RepoOk(r, allowed) && RepoOk(t, allowed)
    requires SealOk(r, x) && SealOk(t, y)
    requires x.identity == y.identity && x.run.runId == y.run.runId && x.run.version == y.run.version
    requires DistinctRows(x.rows) && DistinctRows(y.rows) && multiset(x.rows) == multiset(y.rows)
    ensures x.hash == y.hash
  {
    var ax, ay := r.auths[x.job.authId], t.auths[y.job.authId];
    var rx, ry := r.runs[x.run.runId], t.runs[y.run.runId];
    assert RunOk(r, x.run.runId) && RunOk(t, y.run.runId);
    CohortHashIdentifiesRows(x.rows, y.rows, ax, rx);
    CohortHashReads(y.rows, ax, rx, ay, ry);
  }
}
