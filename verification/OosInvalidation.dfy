/**
 * `_owned` never reads the authorization's status, so an external invalidation does not by itself
 * stop the worker that holds the run. This module says exactly when INVALIDATED is final.
 */
module OosInvalidation {
  import opened Wrappers
  import opened OosRun
  import Text
  import opened OosProtocol
  import opened OosSystem
  import opened OosSafety
  import opened OosTheorems

  /** The worker runs for authorization `a` and presents the current token. */
  ghost predicate Holds(r: Repo, w: Worker, a: string) {
    (w.Active? || w.Failing?) && w.job.authId == a && TokenCurrent(r, w.run)
  }

  /** Whatever happens next, the worker can only end its run for good. */
  ghost predicate Doomed(w: Worker) {
    || (w.Failing? && w.terminal)
    || (w.Active? && w.stage.Check? && !IdentityOk(w.job, w.auth))
  }

  ghost predicate NobodyCanReopen(s: System, a: string) {
    forall p :: p in s.workers && Holds(s.repo, s.workers[p], a) ==> Doomed(s.workers[p])
  }

  ghost predicate IsInvalidated(r: Repo, a: string) {
    a in r.auths && r.auths[a].status.Invalidated?
  }

  /** INVALIDATED survives every admissible continuation. */
  ghost predicate Sticks(s: System, a: string, allowed: Relation) {
    forall schedule :: AdmissibleRun(s, schedule, allowed) ==> IsInvalidated(Exec(s, schedule).repo, a)
  }

  // ------------------------------------------------------------------ nobody can reopen: it sticks

  lemma StartKeepsInvalidated(r: Repo, w: Worker, now: int, newId: string, a: string, allowed: Relation)
    requires RepoOk(r, allowed) && w.Starting? && IsInvalidated(r, a)
    ensures var e := StepStarting(r, w, now, newId);
            IsInvalidated(e.repo, a) && !e.worker.Failing? && (e.worker.Active? ==> e.worker.job.authId != a)
  {
    assert w.job.authId in r.auths ==> AuthOk(r, w.job.authId);
  }

  lemma CollectKeepsInvalidated(r: Repo, w: Worker, now: int, fault: Fault, a: string)
    requires w.Active? && w.stage.Collect? && HoldsRun(r, w.job, w.run)
    requires IsInvalidated(r, a) && !Holds(r, w, a)
    ensures var e := StepCollect(r, w, now, fault);
            && IsInvalidated(e.repo, a)
            && (e.worker.Active? || e.worker.Failing? ==> e.worker.job == w.job && e.worker.run == w.run && e.repo == r)
  {
  }

  lemma FailingKeepsInvalidated(r: Repo, w: Worker, now: int, fault: Fault, a: string)
    requires w.Failing? && HoldsRun(r, w.job, w.run)
    requires IsInvalidated(r, a) && (Holds(r, w, a) ==> Doomed(w))
    ensures IsInvalidated(StepFailing(r, w, now, fault).repo, a)
  {
  }

  lemma LookKeepsInvalidated(r: Repo, w: Worker, fault: Fault)
    requires w.Active? && w.stage.Look?
    ensures var e := StepLook(r, w, fault);
            && e.repo == r
            && (e.worker.Active? || e.worker.Failing? ==> e.worker.job == w.job && e.worker.run == w.run)
  {
  }

  lemma EvaluateKeepsInvalidated(r: Repo, w: Worker, now: int, fault: Fault)
    requires w.Active? && w.stage.Evaluate? && w.stage.next < |w.job.candidates|
    ensures var e := StepEvaluate(r, w, now, fault);
            && e.repo.auths == r.auths && e.repo.runs == r.runs
            && (e.worker.Active? || e.worker.Failing? ==> e.worker.job == w.job && e.worker.run == w.run)
  {
  }

  /** A worker that cannot reopen `a` leaves it INVALIDATED and still cannot reopen it. */
  lemma HeardKeepsInvalidated(r: Repo, w: Worker, now: int, fault: Fault, newId: string, a: string, allowed: Relation)
    requires RepoOk(r, allowed) && WorkerOk(r, w) && IsInvalidated(r, a)
    requires Holds(r, w, a) ==> Doomed(w)
    ensures var e := StepHeard(r, w, now, fault, newId);
            IsInvalidated(e.repo, a) && (Holds(e.repo, e.worker, a) ==> Doomed(e.worker))
  {
    hide RepoOk;
    hide StepStarting;
    hide StepLook;
    hide StepEvaluate;
    hide StepCollect;
    hide Interrupt;
    match w
    case Waiting(_) =>
    case Starting(_, _) => if fault.NoFault? { StartKeepsInvalidated(r, w, now, newId, a, allowed); }
    case Active(_, _, _, Check, _) =>
    case Active(_, _, _, Look(_), _) => LookKeepsInvalidated(r, w, fault);
    case Active(_, _, _, Evaluate(_), _) => EvaluateKeepsInvalidated(r, w, now, fault);
    case Active(_, _, _, Collect(_, _), _) => CollectKeepsInvalidated(r, w, now, fault, a);
    case Failing(_, _, _) => FailingKeepsInvalidated(r, w, now, fault, a);
    case Finished(_, _) =>
  }

  lemma StepKeepsInvalidated(r: Repo, w: Worker, now: int, fault: Fault, newId: string, a: string, allowed: Relation)
    requires RepoOk(r, allowed) && WorkerOk(r, w) && IsInvalidated(r, a)
    requires Holds(r, w, a) ==> Doomed(w)
    requires fault.LostReply? ==> StepHeard(r, w, now, NoFault, newId).seal.None?
    ensures var e := StepWorker(r, w, now, fault, newId);
            IsInvalidated(e.repo, a) && (Holds(e.repo, e.worker, a) ==> Doomed(e.worker))
  {
    hide RepoOk;
    hide StepHeard;
    hide IdentityOk;
    if fault.LostReply? && !(w.Active? && w.stage.Check?) {
      HeardKeepsInvalidated(r, w, now, NoFault, newId, a, allowed);
      if w.Active? {
        HeardKeepsRuns(r, w, now, newId);
      }
    } else {
      HeardKeepsInvalidated(r, w, now, fault, newId, a, allowed);
    }
  }

  /** Nobody else gains a current token by the step of `mover`. */
  lemma OthersStillCannot(r: Repo, r': Repo, mover: Caller, w: Worker, a: string)
    requires Rely(r, r', mover) && WorkerOk(r, w) && (w.Finished? || mover != CallerOf(w.job))
    requires Holds(r, w, a) ==> Doomed(w)
    ensures Holds(r', w, a) ==> Doomed(w)
  {
    if w.Active? || w.Failing? {
      HoldsStable(r, r', mover, w.job, w.run);
    }
  }

  lemma AdvanceKeepsQuiet(s: System, process: string, fault: Fault, newId: string, a: string, allowed: Relation)
    requires Inv(s, allowed) && process in s.workers
    requires NewRunIdIsFresh(s, process, newId) && SealIsHeard(s, process, fault)
    requires IsInvalidated(s.repo, a) && NobodyCanReopen(s, a)
    ensures var e := StepWorker(s.repo, s.workers[process], s.clock, fault, newId);
            IsInvalidated(e.repo, a) && NobodyCanReopen(AfterEffect(s, process, e), a)
  {
    hide StepWorker;
    hide StepHeard;
    hide Rely;
    var w := s.workers[process];
    var e := StepWorker(s.repo, w, s.clock, fault, newId);
    AdvanceGood(s, process, fault, newId, allowed);
    SealNeedsNoRunId(s.repo, w, s.clock, newId);
    StepKeepsInvalidated(s.repo, w, s.clock, fault, newId, a, allowed);
    StepKeepsCall(s.repo, w, s.clock, fault, newId);
    forall p | p in s.workers && p != process && Holds(e.repo, s.workers[p], a) ensures Doomed(s.workers[p]) {
      if !w.Finished? {
        OthersStillCannot(s.repo, e.repo, CallerOf(w.job), s.workers[p], a);
      }
    }
  }

  lemma StepKeepsQuiet(s: System, action: Action, a: string, allowed: Relation)
    requires Inv(s, allowed) && Admissible(s, action, allowed)
    requires IsInvalidated(s.repo, a) && NobodyCanReopen(s, a)
    ensures IsInvalidated(Step(s, action).repo, a) && NobodyCanReopen(Step(s, action), a)
  {
    if action.Advance? && action.process in s.workers {
      AdvanceKeepsQuiet(s, action.process, action.fault, action.newId, a, allowed);
    }
  }

  lemma {:induction false} RunKeepsQuiet(s: System, schedule: seq<Action>, a: string, allowed: Relation)
    requires Inv(s, allowed) && AdmissibleRun(s, schedule, allowed)
    requires IsInvalidated(s.repo, a) && NobodyCanReopen(s, a)
    ensures IsInvalidated(Exec(s, schedule).repo, a)
    decreases |schedule|
  {
    if schedule != [] {
      StepKeepsQuiet(s, schedule[0], a, allowed);
      StepKeepsInv(s, schedule[0], allowed);
      RunKeepsQuiet(Step(s, schedule[0]), schedule[1..], a, allowed);
    }
  }

  // ------------------------------------------------------------------ somebody can: it does not

  lemma InterruptedReopens(r: Repo, w: Worker, now: int, a: string, allowed: Relation)
    requires RepoOk(r, allowed) && WorkerOk(r, w) && w.Failing? && !w.terminal && Holds(r, w, a)
    ensures !IsInvalidated(StepFailing(r, w, now, NoFault).repo, a)
  {
    assert RunOk(r, w.run.runId);
  }

  lemma TransientFails(r: Repo, w: Worker, now: int)
    requires w.Active? && !Doomed(w) && (w.stage.Evaluate? ==> w.stage.next < |w.job.candidates|)
    ensures StepWorker(r, w, now, Transient, "") == Effect(r, Failing(w.job, w.run, false), None)
  {
  }

  lemma FirstOf(s: System, a: Action, rest: seq<Action>, allowed: Relation)
    ensures Exec(s, [a] + rest) == Exec(Step(s, a), rest)
    ensures AdmissibleRun(s, [a] + rest, allowed)
       <==> Admissible(s, a, allowed) && AdmissibleRun(Step(s, a), rest, allowed)
  {
    hide Step;
    hide Admissible;
    assert ([a] + rest)[1..] == rest;
  }

  lemma FailingReopens(s: System, process: string, a: string, allowed: Relation)
    requires Inv(s, allowed) && process in s.workers && s.workers[process].Failing?
    requires Holds(s.repo, s.workers[process], a) && !Doomed(s.workers[process])
    ensures Admissible(s, Advance(process, NoFault, ""), allowed)
    ensures !IsInvalidated(Step(s, Advance(process, NoFault, "")).repo, a)
  {
    assert WorkerOk(s.repo, s.workers[process]);
    InterruptedReopens(s.repo, s.workers[process], s.clock, a, allowed);
    hide Inv;
    hide StepFailing;
  }

  lemma FailsFirst(s: System, process: string, a: string, allowed: Relation)
    requires Inv(s, allowed) && process in s.workers && s.workers[process].Active?
    requires Holds(s.repo, s.workers[process], a) && !Doomed(s.workers[process])
    ensures var fail := Advance(process, Transient, "");
            var t := Step(s, fail);
            && Admissible(s, fail, allowed) && Inv(t, allowed)
            && process in t.workers && t.workers[process].Failing?
            && Holds(t.repo, t.workers[process], a) && !Doomed(t.workers[process])
  {
    assert WorkerOk(s.repo, s.workers[process]);
    TransientFails(s.repo, s.workers[process], s.clock);
    StepKeepsInv(s, Advance(process, Transient, ""), allowed);
    hide Inv;
    hide WorkerOk;
    hide StepWorker;
  }

  /** The reopening schedule: a transient failure, if the worker is not failing already, and its interrupt. */
  lemma HolderReopens(s: System, process: string, a: string, allowed: Relation) returns (schedule: seq<Action>)
    requires Inv(s, allowed) && process in s.workers
    requires Holds(s.repo, s.workers[process], a) && !Doomed(s.workers[process])
    ensures AdmissibleRun(s, schedule, allowed) && !IsInvalidated(Exec(s, schedule).repo, a)
    decreases s.workers[process].Active?
  {
    hide Inv;
    hide Step;
    hide Admissible;
    hide IsInvalidated;
    if s.workers[process].Failing? {
      var last := Advance(process, NoFault, "");
      FailingReopens(s, process, a, allowed);
      FirstOf(s, last, [], allowed);
      schedule := [last] + [];
    } else {
      var fail := Advance(process, Transient, "");
      FailsFirst(s, process, a, allowed);
      var rest := HolderReopens(Step(s, fail), process, a, allowed);
      FirstOf(s, fail, rest, allowed);
      schedule := [fail] + rest;
    }
  }

  /**
   * An INVALIDATED authorization stays INVALIDATED under every admissible continuation exactly when no
   * live worker holds its run with the current token, except one that is bound to end the run for good.
   */
  lemma InvalidationSticksIff(s: System, a: string, allowed: Relation)
    requires Inv(s, allowed) && IsInvalidated(s.repo, a)
    ensures Sticks(s, a, allowed) <==> NobodyCanReopen(s, a)
  {
    if NobodyCanReopen(s, a) {
      forall schedule | AdmissibleRun(s, schedule, allowed) ensures IsInvalidated(Exec(s, schedule).repo, a) {
        RunKeepsQuiet(s, schedule, a, allowed);
      }
    } else {
      var p :| p in s.workers && Holds(s.repo, s.workers[p], a) && !Doomed(s.workers[p]);
      var schedule := HolderReopens(s, p, a, allowed);
    }
  }

  // ------------------------------------------------------------------ a reachable state in which it does not stick

  /** Authorize, spawn, read the authorization, start the run, invalidate. */
  function LateInvalidation(q: Request, process: string, job: Job, newId: string): seq<Action> {
    [Authorize(q), Spawn(process, job), Advance(process, NoFault, newId), Advance(process, NoFault, newId),
     Invalidate(job.authId)]
  }

  /** A job that may start at once: its own authorization, a lease, and candidates that pass the identity checks. */
  ghost predicate StartsAtOnce(q: Request, job: Job, newId: string) {
    && NewAuthorization(q).Success? && job.authId == NewAuthorization(q).value.authorizationId
    && job.candidates != [] && IdentityOk(job, NewAuthorization(q).value) && job.lease > 0
    && RunRecordOk(EvaluationRun(EffectiveRunId(job.runId, None, newId), job.authId, job.owner, 1, Running, job.lease,
                                 job.version, None, None))
  }

  lemma FiveActions(s: System, a: Action, b: Action, c: Action, d: Action, e: Action, allowed: Relation)
    requires Admissible(s, a, allowed) && Admissible(Step(s, a), b, allowed)
    requires Admissible(Step(Step(s, a), b), c, allowed)
    requires Admissible(Step(Step(Step(s, a), b), c), d, allowed)
    requires Admissible(Step(Step(Step(Step(s, a), b), c), d), e, allowed)
    ensures AdmissibleRun(s, [a, b, c, d, e], allowed)
    ensures Exec(s, [a, b, c, d, e]) == Step(Step(Step(Step(Step(s, a), b), c), d), e)
  {
    hide Step;
    hide Admissible;
    var t := Step(s, a);
    var u := Step(t, b);
    var v := Step(u, c);
    var w := Step(v, d);
    FirstOf(w, e, [], allowed);
    FirstOf(v, d, [e], allowed);
    FirstOf(u, c, [d, e], allowed);
    FirstOf(t, b, [c, d, e], allowed);
    FirstOf(s, a, [b, c, d, e], allowed);
    assert [e] + [] == [e] && [d] + [e] == [d, e] && [c] + [d, e] == [c, d, e];
    assert [b] + [c, d, e] == [b, c, d, e] && [a] + [b, c, d, e] == [a, b, c, d, e];
    assert Exec(Step(w, e), []) == Step(w, e);
  }

  /** After the first three of these actions the worker is about to start. */
  lemma ReadyToStart(q: Request, process: string, job: Job, newId: string)
    requires StartsAtOnce(q, job, newId)
    ensures Step(Step(Step(Init, Authorize(q)), Spawn(process, job)), Advance(process, NoFault, newId))
         == System(Repo(map[job.authId := NewAuthorization(q).value], map[], map[], map[]), 0,
                   map[process := Starting(job, NewAuthorization(q).value)], [])
  {
  }

  lemma LateInvalidationReaches(q: Request, process: string, job: Job, newId: string, allowed: Relation)
    requires StartsAtOnce(q, job, newId) && Allowed(job, allowed)
    ensures AdmissibleRun(Init, LateInvalidation(q, process, job, newId), allowed)
    ensures var s := Exec(Init, LateInvalidation(q, process, job, newId));
            && IsInvalidated(s.repo, job.authId) && process in s.workers
            && Holds(s.repo, s.workers[process], job.authId) && !Doomed(s.workers[process])
  {
    hide IdentityOk;
    hide RunRecordOk;
    var go := Advance(process, NoFault, newId);
    ReadyToStart(q, process, job, newId);
    FiveActions(Init, Authorize(q), Spawn(process, job), go, go, Invalidate(job.authId), allowed);
  }

  /** Every such job: an invalidation that arrives after its start does not stick. */
  lemma LateInvalidationDoesNotStick(q: Request, process: string, job: Job, newId: string, allowed: Relation)
    requires StartsAtOnce(q, job, newId) && Allowed(job, allowed)
    ensures var schedule := LateInvalidation(q, process, job, newId);
            && AdmissibleRun(Init, schedule, allowed)
            && IsInvalidated(Exec(Init, schedule).repo, job.authId)
            && !Sticks(Exec(Init, schedule), job.authId, allowed)
  {
    var schedule := LateInvalidation(q, process, job, newId);
    LateInvalidationReaches(q, process, job, newId, allowed);
    InitInv(allowed);
    RunKeepsInv(Init, schedule, allowed);
    hide Exec;
    hide LateInvalidation;
    InvalidationSticksIff(Exec(Init, schedule), job.authId, allowed);
  }

  lemma NotBlank(s: string)
    requires s != [] && !Text.IsSpace(s[0])
    ensures !Text.Blank(s)
  {
  }

  /** There is such a job. */
  lemma AJobStartsAtOnce(evaluator: Candidate -> Payload)
    ensures StartsAtOnce(Request("e", CandidateSetDigest(["c"]), "d", "m", None),
                         Job("w", "oosa-e", [Candidate("c", None, None, None, "", "")], evaluator, Some("r"), 1, "v"),
                         "")
  {
    NotBlank("e");
    NotBlank("d");
    NotBlank("m");
    NotBlank("c");
    NotBlank("w");
    NotBlank("r");
    NotBlank("v");
    NotBlank("oosa-e");
    hide Text.Blank;
    var cs := [Candidate("c", None, None, None, "", "")];
    assert "oosa-" + "e" == "oosa-e";
    assert Ids(cs) == ["c"];
    assert SortIds(["c"]) == ["c"] by { SortedSingle("c"); }
  }

  lemma SortedSingle(id: string)
    ensures SortIds([id]) == [id]
  {
    assert [id][1..] == [];
    assert Text.Sorted<string>([], (x: string) => x) == [];
  }
}
