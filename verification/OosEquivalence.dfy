/**
 * The protocol over the database repository. Its transactions differ from those of `OosProtocol` on some
 * calls; no worker ever makes one of these, so every schedule leads to the same states.
 */
module OosEquivalence {
  import opened Wrappers
  import opened OosRun
  import opened OosProtocol
  import opened OosSystem
  import opened OosSafety
  import opened OosTheorems
  import opened OosLaws
  import D = OosDatabase

  /** A system over the tables of the database; `index` is the unique index on the artifact's run id. */
  datatype Installation = Installation(system: System, index: map<string, Digest>)

  const EMPTY := Installation(Init, map[])

  /** The worker has collected all rows and calls `seal` next. */
  predicate SealsNext(w: Worker) {
    && w.Active? && w.stage.Collect? && w.stage.next >= |w.job.candidates|
    && CanonicalCohortHash(w.stage.rows, w.auth, w.run).Success?
  }

  function HashOf(w: Worker): Digest
    requires SealsNext(w)
  {
    CanonicalCohortHash(w.stage.rows, w.auth, w.run).value
  }

  function SealByDatabase(r: Repo, index: map<string, Digest>, w: Worker, now: int): Outcome<EvaluationRun>
    requires SealsNext(w)
  {
    D.Seal(r, index, w.run.runId, w.job.owner, w.run.token, Some(HashOf(w)),
           ArtifactOf(w.job.authId, w.auth, w.run, w.stage.rows), now)
  }

  /** One step whose transaction answers. */
  function HeardFromDatabase(r: Repo, index: map<string, Digest>, w: Worker, now: int, newId: string): Effect {
    if w.Starting? then
      var job := w.job;
      AfterStart(w, D.StartOrResume(r, job.authId, job.runId, job.owner, job.lease, job.version, now, newId))
    else if w.Active? && w.stage.Evaluate? && w.stage.next < |w.job.candidates| then
      AfterPut(w, D.PutCheckpoint(r, NextCheckpoint(w), w.job.owner, w.run.token, now))
    else if SealsNext(w) then AfterSeal(w, HashOf(w), SealByDatabase(r, index, w, now))
    else StepHeard(r, w, now, NoFault, newId)
  }

  function StepOnDatabase(r: Repo, index: map<string, Digest>, w: Worker, now: int, fault: Fault, newId: string): Effect
  {
    if fault.NoFault? then HeardFromDatabase(r, index, w, now, newId)
    else if fault.LostReply? && !(w.Active? && w.stage.Check?) then
      Effect(HeardFromDatabase(r, index, w, now, newId).repo, Unheard(w), None)
    else StepHeard(r, w, now, fault, newId)
  }

  function IndexAfter(r: Repo, index: map<string, Digest>, w: Worker, now: int, fault: Fault): map<string, Digest> {
    if SealsNext(w) && (fault.NoFault? || fault.LostReply?) then
      D.IndexAfterSeal(index, w.run.runId, Some(HashOf(w)), SealByDatabase(r, index, w, now))
    else index
  }

  function DatabaseStep(d: Installation, a: Action): Installation {
    var s := d.system;
    if a.Advance? && a.process in s.workers then
      var w := s.workers[a.process];
      Installation(AfterEffect(s, a.process, StepOnDatabase(s.repo, d.index, w, s.clock, a.fault, a.newId)),
                   IndexAfter(s.repo, d.index, w, s.clock, a.fault))
    else Installation(Step(s, a), d.index)
  }

  function DatabaseRun(d: Installation, schedule: seq<Action>): Installation
    decreases |schedule|
  {
    if schedule == [] then d else DatabaseRun(DatabaseStep(d, schedule[0]), schedule[1..])
  }

  // ------------------------------------------------------------------ the transactions of a worker

  lemma SameStart(r: Repo, job: Job, now: int, newId: string)
    requires job.authId in r.auths && ActiveRun(r, r.auths[job.authId]).None? ==>
               EffectiveRunId(job.runId, None, newId) !in r.runs
    ensures D.StartOrResume(r, job.authId, job.runId, job.owner, job.lease, job.version, now, newId)
         == StartOrResume(r, job.authId, job.runId, job.owner, job.lease, job.version, now, newId)
  {
    hide StartOrResume;
  }

  lemma SamePut(r: Repo, cp: Checkpoint, owner: string, token: int, now: int)
    requires var owned := Owned(r, cp.runId, owner, token, now, false); owned.Success? ==> !owned.value.Terminal()
    ensures D.PutCheckpoint(r, cp, owner, token, now) == PutCheckpoint(r, cp, owner, token, now)
  {
    hide PutCheckpoint;
    hide Owned;
  }

  lemma SameSeal(r: Repo, index: map<string, Digest>, runId: string, owner: string, token: int, hash: Digest,
                 artifact: Artifact, now: int)
    requires Owned(r, runId, owner, token, now, false).Success? ==> runId !in index && hash !in r.artifacts
    ensures D.Seal(r, index, runId, owner, token, Some(hash), artifact, now)
         == OosProtocol.Seal(r, runId, owner, token, Some(hash), artifact, now)
  {
    hide Owned;
  }

  /** No transaction of a worker breaks a unique key or passes a check that the protocol would not. */
  lemma WorkerMeetsNoIntegrityError(s: System, process: string, index: map<string, Digest>, newId: string,
                                    allowed: Relation)
    requires Inv(s, allowed) && process in s.workers && NewRunIdIsFresh(s, process, newId)
    requires IndexOk(index, s.repo.artifacts)
    ensures var w := s.workers[process];
            w.Starting? ==>
              D.StartOrResume(s.repo, w.job.authId, w.job.runId, w.job.owner, w.job.lease, w.job.version, s.clock,
                              newId)
              == StartOrResume(s.repo, w.job.authId, w.job.runId, w.job.owner, w.job.lease, w.job.version, s.clock,
                               newId)
    ensures var w := s.workers[process];
            w.Active? && w.stage.Evaluate? ==>
              D.PutCheckpoint(s.repo, NextCheckpoint(w), w.job.owner, w.run.token, s.clock)
              == PutCheckpoint(s.repo, NextCheckpoint(w), w.job.owner, w.run.token, s.clock)
    ensures var w := s.workers[process];
            SealsNext(w) ==>
              SealByDatabase(s.repo, index, w, s.clock)
              == OosProtocol.Seal(s.repo, w.run.runId, w.job.owner, w.run.token, Some(HashOf(w)),
                                  ArtifactOf(w.job.authId, w.auth, w.run, w.stage.rows), s.clock)
  {
    var w := s.workers[process];
    InRange(s, process, allowed);
    if w.Active? {
      DivergencesAreUnreachable(s, process, index, allowed);
    }
    hide Inv;
    hide IndexOk;
    hide CanonicalCohortHash;
    hide StartOrResume;
    hide D.StartOrResume;
    hide D.PutCheckpoint;
    hide PutCheckpoint;
    hide D.Seal;
    hide OosProtocol.Seal;
    hide Owned;
    if w.Starting? {
      SameStart(s.repo, w.job, s.clock, newId);
    } else if w.Active? && w.stage.Evaluate? {
      SamePut(s.repo, NextCheckpoint(w), w.job.owner, w.run.token, s.clock);
    } else if SealsNext(w) {
      SameSeal(s.repo, index, w.run.runId, w.job.owner, w.run.token, HashOf(w),
               ArtifactOf(w.job.authId, w.auth, w.run, w.stage.rows), s.clock);
    }
  }

  lemma InRange(s: System, process: string, allowed: Relation)
    requires Inv(s, allowed) && process in s.workers
    ensures var w := s.workers[process]; w.Active? && w.stage.Evaluate? ==> w.stage.next < |w.job.candidates|
  {
    assert WorkerOk(s.repo, s.workers[process]);
  }

  lemma SameHeard(s: System, process: string, index: map<string, Digest>, newId: string, allowed: Relation)
    requires Inv(s, allowed) && process in s.workers && NewRunIdIsFresh(s, process, newId)
    requires IndexOk(index, s.repo.artifacts)
    ensures HeardFromDatabase(s.repo, index, s.workers[process], s.clock, newId)
         == StepHeard(s.repo, s.workers[process], s.clock, NoFault, newId)
  {
    WorkerMeetsNoIntegrityError(s, process, index, newId, allowed);
    hide Inv;
    hide IndexOk;
    hide NewRunIdIsFresh;
    hide StartOrResume;
    hide PutCheckpoint;
    hide OosProtocol.Seal;
    hide D.StartOrResume;
    hide D.PutCheckpoint;
    hide D.Seal;
    hide CanonicalCohortHash;
  }

  /** Only a granted seal adds an artifact, and the index follows. */
  lemma OnlySealsStore(r: Repo, w: Worker, now: int, newId: string)
    requires !SealsNext(w)
    ensures StepHeard(r, w, now, NoFault, newId).repo.artifacts == r.artifacts
  {
    hide CanonicalCohortHash;
    hide IdentityOk;
  }

  lemma NoCallStoresNothing(r: Repo, w: Worker, now: int, fault: Fault, newId: string)
    requires !fault.NoFault?
    ensures StepHeard(r, w, now, fault, newId).repo == r
  {
    hide CanonicalCohortHash;
    hide IdentityOk;
  }

  lemma IndexFollows(s: System, process: string, index: map<string, Digest>, newId: string, allowed: Relation)
    requires Inv(s, allowed) && process in s.workers && NewRunIdIsFresh(s, process, newId)
    requires IndexOk(index, s.repo.artifacts)
    ensures var w := s.workers[process];
            IndexOk(IndexAfter(s.repo, index, w, s.clock, NoFault),
                    StepHeard(s.repo, w, s.clock, NoFault, newId).repo.artifacts)
  {
    var w := s.workers[process];
    if SealsNext(w) {
      DivergencesAreUnreachable(s, process, index, allowed);
      WorkerMeetsNoIntegrityError(s, process, index, newId, allowed);
      hide Inv;
      hide NewRunIdIsFresh;
      hide CanonicalCohortHash;
      IndexGrowsBySeal(s.repo, index, w, s.clock, newId);
    } else {
      OnlySealsStore(s.repo, w, s.clock, newId);
    }
  }

  lemma IndexGrowsBySeal(r: Repo, index: map<string, Digest>, w: Worker, now: int, newId: string)
    requires SealsNext(w) && IndexOk(index, r.artifacts)
    requires SealByDatabase(r, index, w, now)
          == OosProtocol.Seal(r, w.run.runId, w.job.owner, w.run.token, Some(HashOf(w)),
                              ArtifactOf(w.job.authId, w.auth, w.run, w.stage.rows), now)
    requires HashOf(w).CohortDigest? && HashOf(w).runId == w.run.runId
    requires Owned(r, w.run.runId, w.job.owner, w.run.token, now, false).Success? ==> w.run.runId !in index
    ensures IndexOk(IndexAfter(r, index, w, now, NoFault), StepHeard(r, w, now, NoFault, newId).repo.artifacts)
  {
    SealStores(r, w, now, newId);
    hide StepHeard;
    hide SealByDatabase;
    hide OosProtocol.Seal;
    hide Owned;
    hide HashOf;
    hide SealsNext;
    hide CanonicalCohortHash;
    hide IndexOk;
    if w.run.runId !in index {
      IndexGrows(index, r.artifacts, HashOf(w), ArtifactOf(w.job.authId, w.auth, w.run, w.stage.rows));
    }
  }

  lemma SealStores(r: Repo, w: Worker, now: int, newId: string)
    requires SealsNext(w)
    ensures var artifact := ArtifactOf(w.job.authId, w.auth, w.run, w.stage.rows);
            var out := OosProtocol.Seal(r, w.run.runId, w.job.owner, w.run.token, Some(HashOf(w)), artifact, now);
            && StepHeard(r, w, now, NoFault, newId).repo == out.repo
            && out.repo.artifacts == (if out.result.Success? then r.artifacts[HashOf(w) := artifact] else r.artifacts)
            && (out.result.Success? ==> Owned(r, w.run.runId, w.job.owner, w.run.token, now, false).Success?)
  {
    hide CanonicalCohortHash;
  }

  // ------------------------------------------------------------------ whole schedules

  lemma SameStep(d: Installation, a: Action, allowed: Relation)
    requires Inv(d.system, allowed) && Admissible(d.system, a, allowed) && IndexOk(d.index, d.system.repo.artifacts)
    ensures DatabaseStep(d, a).system == Step(d.system, a)
    ensures IndexOk(DatabaseStep(d, a).index, DatabaseStep(d, a).system.repo.artifacts)
  {
    hide Inv;
    hide StepHeard;
    hide HeardFromDatabase;
    hide NewRunIdIsFresh;
    hide SealIsHeard;
    hide IndexOk;
    hide SealsNext;
    var s := d.system;
    if a.Advance? && a.process in s.workers {
      SameHeard(s, a.process, d.index, a.newId, allowed);
      IndexFollows(s, a.process, d.index, a.newId, allowed);
      if !a.fault.NoFault? {
        NoCallStoresNothing(s.repo, s.workers[a.process], s.clock, a.fault, a.newId);
      }
      if a.fault.LostReply? && s.workers[a.process].Active? && s.workers[a.process].stage.Check? {
        NotSealing(s.workers[a.process]);
      }
    }
  }

  lemma NotSealing(w: Worker)
    requires w.Active? && w.stage.Check?
    ensures !SealsNext(w)
  {
  }

  /** From every state of the protocol the database leads to the same states, and never loses the index. */
  lemma {:induction false} DatabaseFollows(d: Installation, schedule: seq<Action>, allowed: Relation)
    requires Inv(d.system, allowed) && AdmissibleRun(d.system, schedule, allowed)
    requires IndexOk(d.index, d.system.repo.artifacts)
    ensures DatabaseRun(d, schedule).system == Exec(d.system, schedule)
    ensures IndexOk(DatabaseRun(d, schedule).index, Exec(d.system, schedule).repo.artifacts)
    decreases |schedule|
  {
    hide IndexOk;
    hide Admissible;
    hide Step;
    hide DatabaseStep;
    if schedule != [] {
      SameStep(d, schedule[0], allowed);
      StepKeepsInv(d.system, schedule[0], allowed);
      hide Inv;
      DatabaseFollows(DatabaseStep(d, schedule[0]), schedule[1..], allowed);
    }
  }

  /**
   * One protocol, two repositories. From the empty tables every admissible schedule over the database
   * reaches the very state that it reaches over the in-memory repository.
   */
  lemma SameProtocol(schedule: seq<Action>, allowed: Relation)
    requires AdmissibleRun(Init, schedule, allowed)
    ensures DatabaseRun(EMPTY, schedule).system == Exec(Init, schedule)
  {
    InitInv(allowed);
    hide Inv;
    assert IndexOk(EMPTY.index, Init.repo.artifacts);
    DatabaseFollows(EMPTY, schedule, allowed);
  }
}
