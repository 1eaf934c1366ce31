/** What the registry's records owe to the calls made: reports, promotion checks and activations, over every run. */
module RegistryLaws {
  import opened Wrappers
  import opened Registry

  // ------------------------------------------------------------------ one call

  /** The index of the record that `name` finds after the first `i` calls. */
  ghost function Found(ops: seq<Operation>, i: nat, name: Name): (k: nat)
    requires DisciplinedRun(ops) && i <= |ops|
  {
    Find(Run(ops[..i]).records, name, 0)
  }

  /** Call `i` finds the record with this id. */
  ghost predicate Finds(ops: seq<Operation>, i: nat, name: Name, id: Id)
    requires DisciplinedRun(ops) && i <= |ops|
  {
    Found(ops, i, name) < |Run(ops[..i]).records| && Run(ops[..i]).records[Found(ops, i, name)].id == id
  }

  /** Call `i` evaluates this record, the report matches it, and the seal says what the report says. */
  ghost predicate EvaluatedAt(ops: seq<Operation>, i: nat, id: Id, seal: Seal)
    requires DisciplinedRun(ops)
  {
    && i < |ops| && ops[i].DoEvaluate? && Finds(ops, i, ops[i].name, id)
    && ops[i].report.hashMatches && ops[i].report.identityMatches
    && (seal.verdict == Pass <==> ops[i].report.passed) && seal.verdict != NotEvaluated
    && seal.mode == ops[i].report.mode && seal.reason == ops[i].report.reason
  }

  /** Call `i` promotes this record, with checks that pass. */
  ghost predicate PromotedAt(ops: seq<Operation>, i: nat, id: Id)
    requires DisciplinedRun(ops)
  {
    i < |ops| && ops[i].DoPromote? && Finds(ops, i, ops[i].name, id) && ops[i].checksPass
  }

  ghost predicate ActivatedAt(ops: seq<Operation>, i: nat, id: Id)
    requires DisciplinedRun(ops)
  {
    i < |ops| && ops[i].DoActivate? && Finds(ops, i, ops[i].name, id)
  }

  ghost predicate EvaluatedThenPromoted(ops: seq<Operation>, i: nat, j: nat, id: Id, seal: Seal)
    requires DisciplinedRun(ops)
  {
    i < j && EvaluatedAt(ops, i, id, seal) && PromotedAt(ops, j, id)
  }

  /** The calls that a record owes its status to. */
  ghost predicate Earned(ops: seq<Operation>, a: Artifact)
    requires DisciplinedRun(ops)
  {
    && (a.status != Candidate ==> exists i: nat :: EvaluatedAt(ops, i, a.id, a.seal))
    && (a.status == Promoted || a.status == Retired ==>
          exists i: nat, j: nat :: EvaluatedThenPromoted(ops, i, j, a.id, a.seal))
  }

  /** How record `k` can change in one call. */
  ghost predicate Changes(s: State, op: Operation, a: Artifact, b: Artifact, k: nat) {
    match op
    case DoRegister(_, _) => false
    case DoEvaluate(name, report) =>
      && Find(s.records, name, 0) == k && a.status == Candidate && report.hashMatches && report.identityMatches
      && b == a.(status := Evaluated, seal := b.seal)
      && (b.seal.verdict == Pass <==> report.passed) && b.seal.verdict != NotEvaluated
      && b.seal.mode == report.mode && b.seal.reason == report.reason
    case DoSeal(name) =>
      Find(s.records, name, 0) == k && a.status == Evaluated && a.seal.verdict == Pass && b == a.(status := Sealed)
    case DoPromote(name, checksPass) =>
      Find(s.records, name, 0) == k && a.status == Sealed && checksPass && b == a.(status := Promoted)
    case DoRetire(name) => Find(s.records, name, 0) == k && a.status == Promoted && b == a.(status := Retired)
    case DoActivate(_) => false
  }

  /** One call changes at most the record it finds, and adds at most a candidate. */
  lemma RecordAfter(s: State, op: Operation, k: nat)
    requires HasHistories(s) && Disciplined(op) && k < |Apply(s, op).state.records|
    ensures var t := Apply(s, op).state;
            |s.records| <= |t.records|
            && if k < |s.records| then t.records[k] == s.records[k] || Changes(s, op, s.records[k], t.records[k], k)
               else t.records[k].status == Candidate
  {
  }

  // ------------------------------------------------------------------ whole runs

  /** The earlier calls of a longer run found what they found. */
  lemma CallsStay(ops: seq<Operation>, op: Operation, i: nat, id: Id, seal: Seal)
    requires DisciplinedRun(ops) && Disciplined(op) && i < |ops|
    ensures DisciplinedRun(ops + [op])
    ensures EvaluatedAt(ops, i, id, seal) ==> EvaluatedAt(ops + [op], i, id, seal)
    ensures PromotedAt(ops, i, id) ==> PromotedAt(ops + [op], i, id)
    ensures ActivatedAt(ops, i, id) ==> ActivatedAt(ops + [op], i, id)
  {
    hide Find;
    hide Run;
    assert (ops + [op])[..i] == ops[..i] && (ops + [op])[i] == ops[i];
  }

  lemma EarnedStays(ops: seq<Operation>, op: Operation, a: Artifact)
    requires DisciplinedRun(ops) && Disciplined(op) && Earned(ops, a)
    ensures DisciplinedRun(ops + [op]) && Earned(ops + [op], a)
  {
    hide EvaluatedAt;
    hide PromotedAt;
    if a.status != Candidate {
      var i: nat :| EvaluatedAt(ops, i, a.id, a.seal);
      InRun(ops, i, a.id, a.seal);
      CallsStay(ops, op, i, a.id, a.seal);
    }
    if a.status == Promoted || a.status == Retired {
      var i: nat, j: nat :| EvaluatedThenPromoted(ops, i, j, a.id, a.seal);
      InRun(ops, i, a.id, a.seal);
      InRun(ops, j, a.id, a.seal);
      CallsStay(ops, op, i, a.id, a.seal);
      CallsStay(ops, op, j, a.id, a.seal);
      assert EvaluatedThenPromoted(ops + [op], i, j, a.id, a.seal);
    }
  }

  lemma InRun(ops: seq<Operation>, i: nat, id: Id, seal: Seal)
    requires DisciplinedRun(ops) && (EvaluatedAt(ops, i, id, seal) || PromotedAt(ops, i, id))
    ensures i < |ops|
  {
    hide Run;
    hide Find;
  }

  lemma LastCall(ops: seq<Operation>, op: Operation, a: Artifact, b: Artifact, k: nat)
    requires DisciplinedRun(ops) && Disciplined(op)
    requires k < |Run(ops).records| && Run(ops).records[k] == a && Changes(Run(ops), op, a, b, k)
    ensures DisciplinedRun(ops + [op]) && b.id == a.id
    ensures op.DoEvaluate? ==> EvaluatedAt(ops + [op], |ops|, b.id, b.seal) && b.status == Evaluated
    ensures op.DoPromote? ==> PromotedAt(ops + [op], |ops|, b.id) && b.status == Promoted && a.status == Sealed
    ensures op.DoSeal? ==> b.status == Sealed && a.status == Evaluated
    ensures op.DoRetire? ==> b.status == Retired && a.status == Promoted
    ensures !op.DoEvaluate? ==> b.seal == a.seal && !op.DoRegister? && !op.DoActivate?
  {
    hide Find;
    hide Run;
    assert (ops + [op])[..|ops|] == ops && (ops + [op])[|ops|] == op;
  }

  lemma EarnedByChange(ops: seq<Operation>, op: Operation, a: Artifact, b: Artifact, k: nat)
    requires DisciplinedRun(ops) && Disciplined(op) && Earned(ops, a)
    requires k < |Run(ops).records| && Run(ops).records[k] == a && Changes(Run(ops), op, a, b, k)
    ensures DisciplinedRun(ops + [op]) && Earned(ops + [op], b)
  {
    hide EvaluatedAt;
    hide PromotedAt;
    hide Run;
    EarnedStays(ops, op, a);
    LastCall(ops, op, a, b, k);
    hide Changes;
    if op.DoPromote? {
      var i: nat :| EvaluatedAt(ops, i, a.id, a.seal);
      InRun(ops, i, a.id, a.seal);
      CallsStay(ops, op, i, a.id, a.seal);
      assert EvaluatedThenPromoted(ops + [op], i, |ops|, b.id, b.seal);
    }
  }

  /**
   * Every record owes its status to calls made: beyond CANDIDATE it was evaluated with a report that matches, and
   * its seal says what that report says; from PROMOTED on it was promoted later, with checks that pass.
   */
  lemma {:induction false} EveryRecordIsEarned(ops: seq<Operation>, k: nat)
    requires DisciplinedRun(ops) && k < |Run(ops).records|
    ensures Earned(ops, Run(ops).records[k])
  {
    hide Run;
    hide Apply;
    hide Earned;
    hide Changes;
    hide Ok;
    if ops == [] {
      NoRecordsYet();
      return;
    }
    var front, op := ops[..|ops| - 1], ops[|ops| - 1];
    assert ops == front + [op];
    var s, t := Run(front), Run(ops);
    RunGrows(front, op);
    HasAll(s);
    RecordAfter(s, op, k);
    if k >= |s.records| {
      CandidateIsEarned(ops, t.records[k]);
    } else {
      EveryRecordIsEarned(front, k);
      if t.records[k] == s.records[k] {
        EarnedStays(front, op, s.records[k]);
      } else {
        EarnedByChange(front, op, s.records[k], t.records[k], k);
      }
    }
  }

  lemma NoRecordsYet()
    ensures DisciplinedRun([]) && Run([]).records == []
  {
  }

  lemma CandidateIsEarned(ops: seq<Operation>, a: Artifact)
    requires DisciplinedRun(ops) && a.status == Candidate
    ensures Earned(ops, a)
  {
  }

  /** From SEALED on, the record was evaluated with a passing report. */
  lemma SealedHasPassingReport(ops: seq<Operation>, k: nat)
    requires DisciplinedRun(ops) && k < |Run(ops).records|
    requires Run(ops).records[k].status in {Sealed, Promoted, Retired}
    ensures var a := Run(ops).records[k];
            exists i: nat :: EvaluatedAt(ops, i, a.id, a.seal) && PassedIn(ops, i)
  {
    hide PathOk;
    hide SnapshotsOk;
    hide ActiveOk;
    hide EventsOk;
    hide EvaluatedAt;
    var a := Run(ops).records[k];
    SealedHasPassed(Run(ops), k);
    EveryRecordIsEarned(ops, k);
    hide Run;
    var i: nat :| EvaluatedAt(ops, i, a.id, a.seal);
    PassIsAReport(ops, i, a.id, a.seal);
  }

  ghost predicate PassedIn(ops: seq<Operation>, i: nat) {
    i < |ops| && ops[i].DoEvaluate? && ops[i].report.passed
  }

  lemma PassIsAReport(ops: seq<Operation>, i: nat, id: Id, seal: Seal)
    requires DisciplinedRun(ops) && EvaluatedAt(ops, i, id, seal) && seal.verdict == Pass
    ensures PassedIn(ops, i)
  {
    hide Run;
    hide Find;
  }

  // ------------------------------------------------------------------ the active model

  /** The calls behind a promoted record: an evaluation with a passing report, then a promotion. */
  ghost predicate PassedAndPromoted(ops: seq<Operation>, i: nat, j: nat, id: Id)
    requires DisciplinedRun(ops)
  {
    i < j && PassedIn(ops, i) && PromotedAt(ops, j, id) && exists seal :: EvaluatedAt(ops, i, id, seal)
  }

  /** From PROMOTED on, the record was evaluated with a passing report and promoted later, with checks that pass. */
  lemma PromotedHasBoth(ops: seq<Operation>, k: nat)
    requires DisciplinedRun(ops) && k < |Run(ops).records|
    requires Run(ops).records[k].status in {Promoted, Retired}
    ensures exists i: nat, j: nat :: PassedAndPromoted(ops, i, j, Run(ops).records[k].id)
  {
    hide PathOk;
    hide SnapshotsOk;
    hide ActiveOk;
    hide EventsOk;
    hide EvaluatedAt;
    hide PromotedAt;
    var a := Run(ops).records[k];
    SealedHasPassed(Run(ops), k);
    EveryRecordIsEarned(ops, k);
    hide Run;
    var i: nat, j: nat :| EvaluatedThenPromoted(ops, i, j, a.id, a.seal);
    PassIsAReport(ops, i, a.id, a.seal);
    assert PassedAndPromoted(ops, i, j, a.id);
  }

  /** Call `l` activates a promoted record of this model. */
  ghost predicate MadeActive(ops: seq<Operation>, l: nat, modelId: string)
    requires DisciplinedRun(ops)
  {
    && l < |ops| && ops[l].DoActivate?
    && var s := Run(ops[..l]);
       var k := Find(s.records, ops[l].name, 0);
       k < |s.records| && s.records[k].id.modelId == modelId && s.records[k].status == Promoted
  }

  lemma ActiveAfter(s: State, op: Operation)
    requires HasHistories(s) && Apply(s, op).state.active.Some?
    ensures var t := Apply(s, op).state;
            t.active == s.active
            || (&& op.DoActivate?
                && var k := Find(s.records, op.name, 0);
                   k < |s.records| && t.active.value == s.records[k].id.modelId && s.records[k].status == Promoted)
  {
  }

  lemma {:induction false} ActiveWasActivated(ops: seq<Operation>)
    requires DisciplinedRun(ops) && Run(ops).active.Some?
    ensures exists l: nat :: MadeActive(ops, l, Run(ops).active.value)
  {
    hide Ok;
    if ops != [] {
      var front, op := ops[..|ops| - 1], ops[|ops| - 1];
      assert ops == front + [op];
      var m := Run(ops).active.value;
      HasAll(Run(front));
      ActiveAfter(Run(front), op);
      hide Apply;
      hide Find;
      if Run(ops).active == Run(front).active {
        ActiveWasActivated(front);
        var l: nat :| MadeActive(front, l, m);
        assert ops[..l] == front[..l];
        assert MadeActive(ops, l, m);
      } else {
        assert MadeActive(ops, |front|, m);
      }
    }
  }

  lemma PrefixCalls(ops: seq<Operation>, l: nat, i: nat, id: Id)
    requires DisciplinedRun(ops) && l <= |ops| && i < l
    ensures DisciplinedRun(ops[..l])
    ensures forall seal :: EvaluatedAt(ops[..l], i, id, seal) ==> EvaluatedAt(ops, i, id, seal)
    ensures PromotedAt(ops[..l], i, id) ==> PromotedAt(ops, i, id)
    ensures PassedIn(ops[..l], i) ==> PassedIn(ops, i)
  {
    hide Find;
    hide Run;
    assert ops[..l][..i] == ops[..i] && ops[..l][i] == ops[i];
  }

  /**
   * An active model was evaluated with a passing report, later promoted with checks that pass, and later still
   * activated.
   */
  lemma ActiveModelIsEarned(ops: seq<Operation>)
    requires DisciplinedRun(ops) && Run(ops).active.Some?
    ensures exists i: nat, j: nat, l: nat, id: Id ::
              && id.modelId == Run(ops).active.value && PassedAndPromoted(ops, i, j, id) && j < l
              && ActivatedAt(ops, l, id)
  {
    hide Ok;
    hide EvaluatedAt;
    hide PromotedAt;
    ActiveWasActivated(ops);
    var l: nat :| MadeActive(ops, l, Run(ops).active.value);
    var s := Run(ops[..l]);
    var k := Find(s.records, ops[l].name, 0);
    hide Run;
    hide Find;
    var id := s.records[k].id;
    PromotedHasBoth(ops[..l], k);
    var i: nat, j: nat :| PassedAndPromoted(ops[..l], i, j, id);
    PromotedIn(ops[..l], j, id);
    PrefixCalls(ops, l, i, id);
    PrefixCalls(ops, l, j, id);
    assert PassedAndPromoted(ops, i, j, id) && ActivatedAt(ops, l, id);
  }

  lemma PromotedIn(ops: seq<Operation>, j: nat, id: Id)
    requires DisciplinedRun(ops) && PromotedAt(ops, j, id)
    ensures j < |ops|
  {
    hide Find;
    hide Run;
  }

  // ------------------------------------------------------------------ from a report to the active model

  /** Replacing a record by one with the same id leaves what every name finds. */
  lemma {:induction false} FindStays(records: seq<Artifact>, k: nat, b: Artifact, name: Name, i: nat)
    requires k < |records| && b.id == records[k].id && i <= |records|
    ensures Find(records[k := b], name, i) == Find(records, name, i)
    decreases |records| - i
  {
    if i < |records| {
      FindStays(records, k, b, name, i + 1);
    }
  }

  /** A call that replaces the record it finds by the next one succeeds. */
  lemma ReplaceSucceeds(s: State, k: nat, b: Artifact, reason: string, name: Name)
    requires Ok(s) && k == Find(s.records, name, 0) < |s.records| && NextOf(s.records[k], b)
    requires s.records[k].status != Promoted
    ensures var t := Replace(s, k, b, reason);
            && t.result == Success(b) && t.state.records == s.records[k := b] && t.state.active == s.active
            && Find(t.state.records, name, 0) == k && Ok(t.state)
  {
    hide Ok;
    ReplaceOk(s, k, b, reason);
    FindStays(s.records, k, b, name, 0);
  }

  lemma EvaluateLeads(s: State, name: Name, report: Report)
    requires Ok(s) && Find(s.records, name, 0) < |s.records| && s.records[Find(s.records, name, 0)].status == Candidate
    requires report.hashMatches && report.identityMatches
    ensures var k := Find(s.records, name, 0);
            var t := Apply(s, DoEvaluate(name, report)).state;
            && Ok(t) && Find(t.records, name, 0) == k && |t.records| == |s.records|
            && t.records[k].id == s.records[k].id && t.records[k].status == Evaluated
            && t.records[k].seal.verdict == if report.passed then Pass else Fail
  {
    hide Ok;
    hide Replace;
    var k := Find(s.records, name, 0);
    var b := s.records[k].(status := Evaluated, seal := SealOf(report));
    ReplaceSucceeds(s, k, b, "EVALUATED", name);
    hide Find;
  }

  lemma SealLeads(s: State, name: Name)
    requires Ok(s) && Find(s.records, name, 0) < |s.records| && s.records[Find(s.records, name, 0)].status == Evaluated
    requires s.records[Find(s.records, name, 0)].seal.verdict == Pass
    ensures var k := Find(s.records, name, 0);
            var t := Apply(s, DoSeal(name)).state;
            && Ok(t) && Find(t.records, name, 0) == k && |t.records| == |s.records|
            && t.records[k].id == s.records[k].id && t.records[k].status == Sealed
            && t.records[k].seal == s.records[k].seal
  {
    hide Ok;
    hide Replace;
    var k := Find(s.records, name, 0);
    ReplaceSucceeds(s, k, s.records[k].(status := Sealed), "SEALED", name);
    hide Find;
  }

  lemma PromoteLeads(s: State, name: Name)
    requires Ok(s) && Find(s.records, name, 0) < |s.records| && s.records[Find(s.records, name, 0)].status == Sealed
    requires s.records[Find(s.records, name, 0)].seal.verdict == Pass
    ensures var k := Find(s.records, name, 0);
            var t := Apply(s, DoPromote(name, true)).state;
            && Ok(t) && Find(t.records, name, 0) == k && |t.records| == |s.records|
            && t.records[k].id == s.records[k].id && t.records[k].status == Promoted
  {
    hide Ok;
    hide Replace;
    var k := Find(s.records, name, 0);
    ReplaceSucceeds(s, k, s.records[k].(status := Promoted), "PROMOTED", name);
    hide Find;
  }

  lemma RunGrows(ops: seq<Operation>, op: Operation)
    requires DisciplinedRun(ops) && Disciplined(op)
    ensures DisciplinedRun(ops + [op]) && Run(ops + [op]) == Apply(Run(ops), op).state
  {
    assert (ops + [op])[..|ops|] == ops;
  }

  /**
   * The way to an active model: a candidate with a passing report that matches, sealed, promoted with checks that
   * pass and activated, is the active model. No such call fails.
   */
  lemma CandidateBecomesActive(ops: seq<Operation>, name: Name, report: Report)
    requires DisciplinedRun(ops) && report.hashMatches && report.identityMatches && report.passed
    requires var s := Run(ops); Find(s.records, name, 0) < |s.records|
    requires var s := Run(ops); s.records[Find(s.records, name, 0)].status == Candidate
    ensures var s := Run(ops);
            var all := ops + [DoEvaluate(name, report)] + [DoSeal(name)] + [DoPromote(name, true)] + [DoActivate(name)];
            DisciplinedRun(all) && Run(all).active == Some(s.records[Find(s.records, name, 0)].id.modelId)
  {
    hide Ok;
    hide Find;
    hide Run;
    hide Replace;
    var a := ops + [DoEvaluate(name, report)];
    RunGrows(ops, DoEvaluate(name, report));
    EvaluateLeads(Run(ops), name, report);
    var b := a + [DoSeal(name)];
    RunGrows(a, DoSeal(name));
    SealLeads(Run(a), name);
    var c := b + [DoPromote(name, true)];
    RunGrows(b, DoPromote(name, true));
    PromoteLeads(Run(b), name);
    RunGrows(c, DoActivate(name));
    Switched(Run(c), name);
  }

  lemma Switched(s: State, name: Name)
    requires Ok(s) && Find(s.records, name, 0) < |s.records|
    requires s.records[Find(s.records, name, 0)].status == Promoted
    ensures Apply(s, DoActivate(name)).state.active == Some(s.records[Find(s.records, name, 0)].id.modelId)
  {
    hide Find;
  }

  // ------------------------------------------------------------------ a report that failed

  lemma FailedStays(s: State, op: Operation, k: nat)
    requires Ok(s) && Disciplined(op) && k < |s.records|
    requires s.records[k].status == Evaluated && s.records[k].seal.verdict == Fail
    ensures var t := Apply(s, op).state; k < |t.records| && t.records[k] == s.records[k]
  {
    hide Ok;
    HasAll(s);
    NoneLost(s, op);
    RecordAfter(s, op, k);
    hide Apply;
  }

  lemma NoneLost(s: State, op: Operation)
    requires HasHistories(s)
    ensures |s.records| <= |Apply(s, op).state.records|
  {
  }

  lemma HasAll(s: State)
    requires Ok(s)
    ensures HasHistories(s)
  {
  }

  /** A failed report leaves an EVALUATED record, and no continuation seals it. */
  lemma {:induction false} FailedIsNeverSealed(ops: seq<Operation>, more: seq<Operation>, k: nat)
    requires DisciplinedRun(ops) && DisciplinedRun(more) && k < |Run(ops).records|
    requires Run(ops).records[k].status == Evaluated && Run(ops).records[k].seal.verdict == Fail
    ensures DisciplinedRun(ops + more) && k < |Run(ops + more).records|
    ensures Run(ops + more).records[k] == Run(ops).records[k]
  {
    hide Run;
    hide Apply;
    hide Ok;
    if more == [] {
      assert ops + more == ops;
    } else {
      var front, op := more[..|more| - 1], more[|more| - 1];
      FailedIsNeverSealed(ops, front, k);
      RunGrows(ops + front, op);
      FailedStays(Run(ops + front), op, k);
      assert ops + more == ops + front + [op];
    }
  }

  /** The record of a candidate whose report fails, after every continuation. */
  lemma FailedReportEnds(ops: seq<Operation>, name: Name, report: Report, more: seq<Operation>)
    requires DisciplinedRun(ops) && DisciplinedRun(more)
    requires report.hashMatches && report.identityMatches && !report.passed
    requires var s := Run(ops); Find(s.records, name, 0) < |s.records|
    requires var s := Run(ops); s.records[Find(s.records, name, 0)].status == Candidate
    ensures var all := ops + [DoEvaluate(name, report)] + more;
            var k := Find(Run(ops).records, name, 0);
            && DisciplinedRun(all) && k < |Run(all).records| && Run(all).records[k].id == Run(ops).records[k].id
            && Run(all).records[k].status == Evaluated && Run(all).records[k].seal.verdict != Pass
  {
    hide Run;
    hide Find;
    hide Ok;
    RunGrows(ops, DoEvaluate(name, report));
    var k := Find(Run(ops).records, name, 0);
    EvaluateLeads(Run(ops), name, report);
    hide Apply;
    FailedIsNeverSealed(ops + [DoEvaluate(name, report)], more, k);
  }

  /** A call that fails changes nothing. */
  lemma RefusedChangesNothing(s: State, op: Operation)
    requires Ok(s) && Disciplined(op) && Apply(s, op).result.Failure?
    ensures Apply(s, op).state == s
  {
    hide Ok;
    hide Find;
    hide NextOf;
    StepOk(s, op);
  }

  /** An active model stays active until it is retired or another one is activated. */
  lemma ActiveUntil(s: State, op: Operation)
    requires Ok(s) && s.active.Some? && Apply(s, op).state.active != s.active
    ensures op.DoActivate? || op.DoRetire?
    ensures var k := Find(s.records, op.name, 0);
            && k < |s.records| && s.records[k].status == Promoted
            && (op.DoRetire? ==> s.records[k].id.modelId == s.active.value)
  {
    hide Ok;
    hide Find;
  }

  /**
   * Registering succeeds exactly when the checkpoint does not contradict it and the artifact is there already, or
   * neither its id nor its model is; then the registry holds this artifact under its id.
   */
  lemma RegisterSucceedsIff(s: State, a: Artifact, checkpointOk: Option<bool>)
    requires Ok(s)
    ensures var t := Register(s, a, checkpointOk);
            && (t.result.Success? <==> checkpointOk != Some(false)
                                       && (a in s.records || !Registered(s.records, a.id.modelId)))
            && (t.result.Success? ==> t.result.value == a && a in t.state.records
                                      && (a in s.records ==> t.state == s))
  {
    hide PathOk;
    hide SnapshotsOk;
    hide ActiveOk;
    hide EventsOk;
    hide Find;
    var k, m := Find(s.records, ArtifactId(a.id), 0), Find(s.records, Model(a.id.modelId), 0);
    if a in s.records {
      var j :| 0 <= j < |s.records| && s.records[j] == a;
      assert Matches(s.records[j], ArtifactId(a.id));
      SameModel(s, j, k);
    } else {
      NewUnderItsId(s, a);
    }
  }

  lemma NewUnderItsId(s: State, a: Artifact)
    requires RecordsOk(s) && a !in s.records
    ensures var k := Find(s.records, ArtifactId(a.id), 0);
            && (k < |s.records| ==> s.records[k] != a && Registered(s.records, a.id.modelId))
            && (Find(s.records, Model(a.id.modelId), 0) == |s.records| <==> !Registered(s.records, a.id.modelId))
  {
    hide PathOk;
    var m := Find(s.records, Model(a.id.modelId), 0);
    if m == |s.records| {
      NotRegistered(s.records, a.id.modelId);
    } else {
      assert Matches(s.records[m], Model(a.id.modelId));
    }
  }

  /** Retiring a promoted model succeeds, and it is not active afterwards. */
  lemma RetireEnds(s: State, name: Name)
    requires Ok(s) && Find(s.records, name, 0) < |s.records|
    requires s.records[Find(s.records, name, 0)].status == Promoted
    ensures var k := Find(s.records, name, 0);
            var t := Apply(s, DoRetire(name));
            && t.result == Success(s.records[k].(status := Retired))
            && t.state.records == s.records[k := t.result.value]
            && t.state.active == if s.active == Some(s.records[k].id.modelId) then None else s.active
  {
    hide Find;
    hide PathOk;
    hide SnapshotsOk;
    hide EventsOk;
    var k := Find(s.records, name, 0);
    var cleared := if s.active == Some(s.records[k].id.modelId) then s.(active := None) else s;
    SealedHasPassed(s, k);
    ClearedIsOk(s);
    hide Ok;
    ReplaceOk(cleared, k, s.records[k].(status := Retired), "RETIRED");
  }

  // ------------------------------------------------------------------ the event log

  /** The statuses that the events of a model tell, without the switches of the active model. */
  ghost function Told(events: seq<Event>, modelId: string): seq<Status> {
    if events == [] then []
    else
      var e := events[|events| - 1];
      Told(events[..|events| - 1], modelId) + if e.modelId == modelId && e.from != Some(e.to) then [e.to] else []
  }

  ghost function Statuses(path: seq<Artifact>): (r: seq<Status>)
    ensures |r| == |path|
  {
    seq(|path|, i requires 0 <= i < |path| => path[i].status)
  }

  ghost predicate Registered(records: seq<Artifact>, modelId: string) {
    exists k :: 0 <= k < |records| && records[k].id.modelId == modelId
  }

  ghost predicate ToldOf(s: State, events: seq<Event>, id: Id)
    requires id in s.history
  {
    Told(events, id.modelId) == Statuses(s.history[id])
  }

  /** The history of every record is what the event log tells of its model, and it tells of no other model. */
  ghost predicate Logged(s: State)
    requires HasHistories(s)
  {
    && (forall k :: 0 <= k < |s.records| ==> ToldOf(s, s.events, s.records[k].id))
    && forall m :: !Registered(s.records, m) ==> Told(s.events, m) == []
  }

  lemma OneMoreEvent(events: seq<Event>, modelId: string, from: Option<Status>, to: Status, reason: string, m: string)
    ensures Told(AppendEvent(events, modelId, from, to, reason), m)
         == Told(events, m) + if m == modelId && from != Some(to) then [to] else []
  {
    var all := AppendEvent(events, modelId, from, to, reason);
    assert all[..|events|] == events;
  }

  lemma OneMoreStatus(path: seq<Artifact>, a: Artifact)
    ensures Statuses(path + [a]) == Statuses(path) + [a.status]
  {
  }

  lemma RegisteredAfter(records: seq<Artifact>, a: Artifact, m: string)
    ensures Registered(records + [a], m) <==> Registered(records, m) || a.id.modelId == m
  {
    assert (records + [a])[|records|] == a;
    if Registered(records, m) {
      var k :| 0 <= k < |records| && records[k].id.modelId == m;
      assert (records + [a])[k] == records[k];
    }
  }

  lemma RegisteredStill(records: seq<Artifact>, k: nat, b: Artifact, m: string)
    requires k < |records| && b.id == records[k].id
    ensures Registered(records[k := b], m) <==> Registered(records, m)
  {
    var t := records[k := b];
    assert t[k] == b;
    if Registered(records, m) {
      var j :| 0 <= j < |records| && records[j].id.modelId == m;
      assert t[j].id == records[j].id;
    }
    if Registered(t, m) {
      var j :| 0 <= j < |t| && t[j].id.modelId == m;
      assert t[j].id == records[j].id;
    }
  }

  /** A new model: its history and its events begin. */
  lemma NewIsLogged(s: State, a: Artifact, t: State)
    requires HasHistories(s) && Logged(s) && a.status == Candidate && a.id !in s.history
    requires !Registered(s.records, a.id.modelId)
    requires t.records == s.records + [a] && t.history == s.history[a.id := [a]]
    requires t.events == AppendEvent(s.events, a.id.modelId, None, a.status, "REGISTERED")
    ensures HasHistories(t) && Logged(t)
  {
    hide Told;
    hide Statuses;
    hide AppendEvent;
    forall m ensures Told(t.events, m) == Told(s.events, m) + if m == a.id.modelId then [Candidate] else [] {
      OneMoreEvent(s.events, a.id.modelId, None, a.status, "REGISTERED", m);
    }
    NewPath(a);
    assert t.history[a.id] == [a];
    forall k | 0 <= k < |t.records| ensures t.records[k].id in t.history && ToldOf(t, t.events, t.records[k].id) {
      if k < |s.records| {
        assert t.records[k] == s.records[k] && ToldOf(s, s.events, s.records[k].id);
        assert Registered(s.records, s.records[k].id.modelId);
      } else {
        assert Told(s.events, a.id.modelId) == [];
      }
    }
    forall m | !Registered(t.records, m) ensures Told(t.events, m) == [] {
      RegisteredAfter(s.records, a, m);
    }
  }

  lemma RegisterIsLogged(s: State, a: Artifact, checkpointOk: Option<bool>)
    requires Ok(s) && Logged(s) && a.status == Candidate
    ensures HasHistories(Register(s, a, checkpointOk).state) && Logged(Register(s, a, checkpointOk).state)
  {
    hide Logged;
    hide Ok;
    hide AppendEvent;
    var t := Register(s, a, checkpointOk).state;
    HasAll(s);
    if t.records != s.records {
      FreshIsNew(s, a);
      NotRegistered(s.records, a.id.modelId);
      hide Find;
      NewIsLogged(s, a, t);
    }
  }

  lemma NotRegistered(records: seq<Artifact>, modelId: string)
    requires Find(records, Model(modelId), 0) == |records|
    ensures !Registered(records, modelId)
  {
    forall k | 0 <= k < |records| ensures records[k].id.modelId != modelId {
      assert !Matches(records[k], Model(modelId));
    }
  }

  lemma NewPath(a: Artifact)
    ensures Statuses([a]) == [a.status]
  {
  }

  /** A record that changes: its history and its events grow by the new status. */
  lemma ChangeIsLogged(s: State, k: nat, b: Artifact, reason: string, t: State)
    requires RecordsOk(s) && Logged(s) && k < |s.records|
    requires b.id == s.records[k].id && b.status != s.records[k].status
    requires t.records == s.records[k := b] && t.history == s.history[b.id := s.history[b.id] + [b]]
    requires t.events == AppendEvent(s.events, b.id.modelId, Some(s.records[k].status), b.status, reason)
    ensures HasHistories(t) && Logged(t)
  {
    hide Told;
    hide Statuses;
    hide AppendEvent;
    hide PathOk;
    forall m ensures Told(t.events, m) == Told(s.events, m) + if m == b.id.modelId then [b.status] else [] {
      OneMoreEvent(s.events, b.id.modelId, Some(s.records[k].status), b.status, reason, m);
    }
    OneMoreStatus(s.history[b.id], b);
    forall j | 0 <= j < |t.records| ensures t.records[j].id in t.history && ToldOf(t, t.events, t.records[j].id) {
      assert t.records[j].id == s.records[j].id && ToldOf(s, s.events, s.records[j].id);
      if j != k {
        Distinct(s, j, k);
      }
    }
    forall m | !Registered(t.records, m) ensures Told(t.events, m) == [] {
      RegisteredStill(s.records, k, b, m);
      assert t.records[k].id.modelId == b.id.modelId;
    }
  }

  lemma ReplaceIsLogged(s: State, k: nat, b: Artifact, reason: string)
    requires Ok(s) && Logged(s) && k < |s.records| && NextOf(s.records[k], b)
    ensures HasHistories(Replace(s, k, b, reason).state) && Logged(Replace(s, k, b, reason).state)
  {
    hide Logged;
    hide RecordsOk;
    hide SnapshotsOk;
    hide ActiveOk;
    hide EventsOk;
    hide AppendEvent;
    HasAll(s);
    NoCollision(s, k, b);
    ChangeIsLogged(s, k, b, reason, Replace(s, k, b, reason).state);
  }

  lemma StepIsLogged(s: State, op: Operation)
    requires Ok(s) && Logged(s) && Disciplined(op)
    ensures HasHistories(Apply(s, op).state) && Logged(Apply(s, op).state)
  {
    hide Logged;
    hide Replace;
    hide Register;
    hide SnapshotsOk;
    hide EventsOk;
    hide ActiveOk;
    hide PathOk;
    if op.DoRegister? {
      RegisterIsLogged(s, op.artifact, op.checkpointOk);
      return;
    }
    var k := Find(s.records, op.name, 0);
    if k == |s.records| || Apply(s, op).result.Failure? {
      RefusedChangesNothing(s, op);
      return;
    }
    match op
    case DoEvaluate(_, report) =>
      ReplaceIsLogged(s, k, s.records[k].(status := Evaluated, seal := SealOf(report)), "EVALUATED");
    case DoSeal(_) => ReplaceIsLogged(s, k, s.records[k].(status := Sealed), "SEALED");
    case DoPromote(_, _) =>
      SealedHasPassed(s, k);
      ReplaceIsLogged(s, k, s.records[k].(status := Promoted), "PROMOTED");
    case DoRetire(_) =>
      SealedHasPassed(s, k);
      var cleared := if s.active == Some(s.records[k].id.modelId) then s.(active := None) else s;
      ClearedIsLogged(s);
      ReplaceIsLogged(cleared, k, s.records[k].(status := Retired), "RETIRED");
    case DoActivate(name) => SwitchIsLogged(s, name);
  }

  lemma ClearedIsLogged(s: State)
    requires Ok(s) && Logged(s)
    ensures Ok(s.(active := None)) && Logged(s.(active := None))
  {
    ClearedIsOk(s);
    hide Ok;
    hide Told;
    hide Statuses;
    hide Registered;
    HasAll(s);
    forall k | 0 <= k < |s.records| ensures ToldOf(s.(active := None), s.events, s.records[k].id) {
      assert ToldOf(s, s.events, s.records[k].id);
    }
  }

  lemma SwitchIsLogged(s: State, name: Name)
    requires Ok(s) && Logged(s)
    ensures HasHistories(Apply(s, DoActivate(name)).state) && Logged(Apply(s, DoActivate(name)).state)
  {
    hide Told;
    hide Statuses;
    hide PathOk;
    var t := Apply(s, DoActivate(name)).state;
    var k := Find(s.records, name, 0);
    if k < |s.records| {
      var a := s.records[k];
      forall m ensures t.events != s.events ==> Told(t.events, m) == Told(s.events, m) {
        OneMoreEvent(s.events, a.id.modelId, Some(a.status), a.status, "ACTIVE_SWITCH", m);
      }
    }
  }

  /** Over every run the event log tells the history of every record, and of no model that was not registered. */
  lemma {:induction false} LogTellsTheHistories(ops: seq<Operation>)
    requires DisciplinedRun(ops)
    ensures Logged(Run(ops))
  {
    hide Ok;
    hide Logged;
    hide Apply;
    if ops == [] {
      NothingIsLogged();
    } else {
      var front, op := ops[..|ops| - 1], ops[|ops| - 1];
      LogTellsTheHistories(front);
      StepIsLogged(Run(front), op);
    }
  }

  lemma NothingIsLogged()
    ensures Logged(EMPTY)
  {
  }
}
