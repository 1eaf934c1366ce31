/**
 * The model registry as a value: what every operation does to it, and what every run of operations keeps.
 *
 * Ids are symbolic hashes: an artifact id is its model id and identity, a record id is the whole record.
 */
module Registry {
  import opened Wrappers

  datatype Status = Candidate | Evaluated | Sealed | Promoted | Retired
  datatype Verdict = NotEvaluated | Pass | Fail
  datatype Seal = Seal(verdict: Verdict, mode: string, reason: string)
  datatype Id = Id(modelId: string, identity: string)
  datatype Artifact = Artifact(id: Id, status: Status, seal: Seal)
  datatype Event = Event(sequence: nat, modelId: string, from: Option<Status>, to: Status, reason: string)
  datatype Error = NotRegistered | WrongStatus | CheckpointMismatch | IdCollision | ModelIdTaken | RecordCollision
                 | ReportMismatch | NotPassed | PromotionDenied

  /** What an artifact is looked up by: its model id or its artifact id, which share no text. */
  datatype Name = Model(modelId: string) | ArtifactId(id: Id)

  /** `records` and `snapshots` keep the insertion order of their dictionaries. */
  datatype State = State(records: seq<Artifact>, snapshots: seq<Artifact>, history: map<Id, seq<Artifact>>,
                         events: seq<Event>, active: Option<string>)
  datatype Step = Step(state: State, result: Result<Artifact, Error>)

  const EMPTY := State([], [], map[], [], None)

  predicate Matches(a: Artifact, name: Name) {
    match name
    case Model(modelId) => a.id.modelId == modelId
    case ArtifactId(id) => a.id == id
  }

  /** `get`: the first record that the name fits, or the number of records. */
  function Find(records: seq<Artifact>, name: Name, i: nat): (k: nat)
    requires i <= |records|
    ensures i <= k <= |records| && (k < |records| ==> Matches(records[k], name))
    ensures forall j :: i <= j < k ==> !Matches(records[j], name)
    decreases |records| - i
  {
    if i == |records| || Matches(records[i], name) then i else Find(records, name, i + 1)
  }

  function AppendEvent(events: seq<Event>, modelId: string, from: Option<Status>, to: Status,
                       reason: string): seq<Event>
  {
    events + [Event(|events| + 1, modelId, from, to, reason)]
  }

  /** `register`; `checkpointOk` is None without a checkpoint. */
  function Register(s: State, a: Artifact, checkpointOk: Option<bool>): Step {
    if checkpointOk == Some(false) then Step(s, Failure(CheckpointMismatch))
    else
      var k := Find(s.records, ArtifactId(a.id), 0);
      if k < |s.records| then
        if s.records[k] != a then Step(s, Failure(IdCollision)) else Step(s, Success(s.records[k]))
      else if Find(s.records, Model(a.id.modelId), 0) < |s.records| then Step(s, Failure(ModelIdTaken))
      else
        Step(State(s.records + [a], s.snapshots + [a], s.history[a.id := [a]],
                   AppendEvent(s.events, a.id.modelId, None, a.status, "REGISTERED"), s.active),
             Success(a))
  }

  /** `_replace` */
  function Replace(s: State, k: nat, updated: Artifact, reason: string): Step
    requires k < |s.records| && s.records[k].id in s.history
  {
    var current := s.records[k];
    if updated in s.snapshots then Step(s, Failure(RecordCollision))
    else
      Step(State(s.records[k := updated], s.snapshots + [updated],
                 s.history[current.id := s.history[current.id] + [updated]],
                 AppendEvent(s.events, current.id.modelId, Some(current.status), updated.status, reason), s.active),
           Success(updated))
  }

  /** What `evaluate` finds in the report. */
  datatype Report = Report(hashMatches: bool, identityMatches: bool, passed: bool, mode: string, reason: string)

  datatype Operation =
    | DoRegister(artifact: Artifact, checkpointOk: Option<bool>)
    | DoEvaluate(name: Name, report: Report)
    | DoSeal(name: Name)
    | DoPromote(name: Name, checksPass: bool)
    | DoRetire(name: Name)
    | DoActivate(name: Name)

  /** Every record has a history. */
  ghost predicate HasHistories(s: State) {
    forall k :: 0 <= k < |s.records| ==> s.records[k].id in s.history
  }

  function SealOf(report: Report): Seal {
    Seal(if report.passed then Pass else Fail, report.mode, report.reason)
  }

  /** One call of the registry. */
  function Apply(s: State, op: Operation): Step
    requires HasHistories(s)
  {
    match op
    case DoRegister(a, checkpointOk) => Register(s, a, checkpointOk)
    case DoEvaluate(name, report) =>
      var k := Find(s.records, name, 0);
      if k == |s.records| then Step(s, Failure(NotRegistered))
      else if s.records[k].status != Candidate then Step(s, Failure(WrongStatus))
      else if !report.hashMatches || !report.identityMatches then Step(s, Failure(ReportMismatch))
      else Replace(s, k, s.records[k].(status := Evaluated, seal := SealOf(report)), "EVALUATED")
    case DoSeal(name) =>
      var k := Find(s.records, name, 0);
      if k == |s.records| then Step(s, Failure(NotRegistered))
      else if s.records[k].status != Evaluated then Step(s, Failure(WrongStatus))
      else if s.records[k].seal.verdict != Pass then Step(s, Failure(NotPassed))
      else Replace(s, k, s.records[k].(status := Sealed), "SEALED")
    case DoPromote(name, checksPass) =>
      var k := Find(s.records, name, 0);
      if k == |s.records| then Step(s, Failure(NotRegistered))
      else if s.records[k].status != Sealed then Step(s, Failure(WrongStatus))
      else if !checksPass then Step(s, Failure(PromotionDenied))
      else Replace(s, k, s.records[k].(status := Promoted), "PROMOTED")
    case DoRetire(name) =>
      var k := Find(s.records, name, 0);
      if k == |s.records| then Step(s, Failure(NotRegistered))
      else if s.records[k].status != Promoted then Step(s, Failure(WrongStatus))
      else
        var cleared := if s.active == Some(s.records[k].id.modelId) then s.(active := None) else s;
        Replace(cleared, k, s.records[k].(status := Retired), "RETIRED")
    case DoActivate(name) =>
      var k := Find(s.records, name, 0);
      if k == |s.records| then Step(s, Failure(NotRegistered))
      else if s.records[k].status != Promoted then Step(s, Failure(WrongStatus))
      else
        var a := s.records[k];
        Step(s.(active := Some(a.id.modelId),
                events := AppendEvent(s.events, a.id.modelId, Some(a.status), a.status, "ACTIVE_SWITCH")), Success(a))
  }

  // ------------------------------------------------------------------ the invariant

  function Rank(status: Status): nat {
    match status
    case Candidate => 0
    case Evaluated => 1
    case Sealed => 2
    case Promoted => 3
    case Retired => 4
  }

  /** The path from CANDIDATE to the current record, one status at a time; from SEALED on the seal has passed. */
  ghost predicate PathOk(path: seq<Artifact>, current: Artifact) {
    && |path| == Rank(current.status) + 1
    && path[|path| - 1] == current
    && (forall i :: 0 <= i < |path| ==> path[i].id == current.id && Rank(path[i].status) == i)
    && (forall i :: 2 <= i < |path| ==> path[i].seal.verdict == Pass)
  }

  ghost predicate RecordsOk(s: State) {
    && HasHistories(s)
    && (forall k :: 0 <= k < |s.records| ==> PathOk(s.history[s.records[k].id], s.records[k]))
    && (forall j, k :: 0 <= j < k < |s.records| ==> s.records[j].id.modelId != s.records[k].id.modelId)
  }

  /** The snapshots are exactly the entries of the histories, and every history belongs to a record. */
  ghost predicate SnapshotsOk(s: State) {
    && (forall a :: a in s.snapshots ==> a.id in s.history && a in s.history[a.id])
    && (forall id, i :: id in s.history && 0 <= i < |s.history[id]| ==> s.history[id][i] in s.snapshots)
    && (forall id :: id in s.history ==> exists k :: 0 <= k < |s.records| && s.records[k].id == id)
  }

  ghost predicate EventsOk(events: seq<Event>) {
    forall i :: 0 <= i < |events| ==> events[i].sequence == i + 1
  }

  ghost predicate ActiveOk(s: State) {
    s.active.Some? ==>
      exists k :: 0 <= k < |s.records| && s.records[k].id.modelId == s.active.value && s.records[k].status == Promoted
  }

  ghost predicate Ok(s: State) {
    RecordsOk(s) && SnapshotsOk(s) && EventsOk(s.events) && ActiveOk(s)
  }

  /** Nothing that was recorded is removed or altered. */
  ghost predicate Extends(s: State, t: State) {
    && s.snapshots <= t.snapshots && s.events <= t.events
    && (forall id :: id in s.history ==> id in t.history && s.history[id] <= t.history[id])
  }

  lemma FreshIsNew(s: State, a: Artifact)
    requires Ok(s) && Find(s.records, ArtifactId(a.id), 0) == |s.records|
    ensures a.id !in s.history
  {
    forall k | 0 <= k < |s.records| ensures s.records[k].id != a.id {
      assert !Matches(s.records[k], ArtifactId(a.id));
    }
  }

  lemma RegisterOk(s: State, a: Artifact, checkpointOk: Option<bool>)
    requires Ok(s) && a.status == Candidate
    ensures Ok(Register(s, a, checkpointOk).state) && Extends(s, Register(s, a, checkpointOk).state)
    ensures Register(s, a, checkpointOk).result != Failure(RecordCollision)
  {
    hide RecordsOk;
    hide SnapshotsOk;
    hide ActiveOk;
    var t := Register(s, a, checkpointOk).state;
    if t.records != s.records {
      FreshIsNew(s, a);
      RegisteredRecords(s, a, t);
      RegisteredSnapshots(s, a, t);
      ActiveSurvives(s, t, |s.records|);
    }
  }

  lemma RegisteredRecords(s: State, a: Artifact, t: State)
    requires RecordsOk(s) && a.id !in s.history && a.status == Candidate
    requires t.records == s.records + [a] && t.history == s.history[a.id := [a]]
    requires forall j :: 0 <= j < |s.records| ==> !Matches(s.records[j], Model(a.id.modelId))
    ensures RecordsOk(t)
  {
    forall k | 0 <= k < |t.records|
      ensures t.records[k].id in t.history && PathOk(t.history[t.records[k].id], t.records[k])
    {
      if k < |s.records| {
        assert t.records[k] == s.records[k] && s.records[k].id != a.id;
      }
    }
    forall j, k | 0 <= j < k < |t.records| ensures t.records[j].id.modelId != t.records[k].id.modelId {
      assert !Matches(s.records[j], Model(a.id.modelId));
    }
  }

  lemma RegisteredSnapshots(s: State, a: Artifact, t: State)
    requires SnapshotsOk(s) && a.id !in s.history
    requires t.records == s.records + [a] && t.history == s.history[a.id := [a]] && t.snapshots == s.snapshots + [a]
    ensures SnapshotsOk(t)
  {
    forall id | id in t.history ensures exists k :: 0 <= k < |t.records| && t.records[k].id == id {
      if id == a.id {
        assert t.records[|s.records|].id == id;
      } else {
        var k :| 0 <= k < |s.records| && s.records[k].id == id;
        assert t.records[k].id == id;
      }
    }
    forall id, i | id in t.history && 0 <= i < |t.history[id]| ensures t.history[id][i] in t.snapshots {
      if id == a.id {
        assert t.snapshots[|s.snapshots|] == a;
      } else {
        assert s.history[id][i] in s.snapshots;
      }
    }
  }

  /** The active record is not the one that changes. */
  lemma ActiveSurvives(s: State, t: State, changed: nat)
    requires ActiveOk(s) && t.active == s.active && |s.records| <= |t.records|
    requires forall k :: 0 <= k < |s.records| && k != changed ==> t.records[k] == s.records[k]
    requires changed < |s.records| ==> s.records[changed].status != Promoted
    ensures ActiveOk(t)
  {
    if s.active.Some? {
      var k :| 0 <= k < |s.records| && s.records[k].id.modelId == s.active.value && s.records[k].status == Promoted;
      assert t.records[k] == s.records[k];
    }
  }

  // ------------------------------------------------------------------ one step forward

  /** A record one status further, with a passed seal from SEALED on. */
  ghost predicate NextOf(current: Artifact, updated: Artifact) {
    && updated.id == current.id && Rank(updated.status) == Rank(current.status) + 1
    && (Rank(updated.status) >= 2 ==> updated.seal.verdict == Pass)
  }

  lemma NextPath(path: seq<Artifact>, current: Artifact, updated: Artifact)
    requires PathOk(path, current) && NextOf(current, updated)
    ensures PathOk(path + [updated], updated) && updated !in path
  {
    forall i | 0 <= i < |path| ensures path[i] != updated {
      assert Rank(path[i].status) == i;
    }
  }

  /** A record id never collides: a record with this status has not existed yet. */
  lemma NoCollision(s: State, k: nat, updated: Artifact)
    requires Ok(s) && k < |s.records| && NextOf(s.records[k], updated)
    ensures updated !in s.snapshots
  {
    NextPath(s.history[s.records[k].id], s.records[k], updated);
  }

  lemma ReplaceOk(s: State, k: nat, updated: Artifact, reason: string)
    requires Ok(s) && k < |s.records| && NextOf(s.records[k], updated)
    requires s.records[k].status != Promoted || s.active != Some(s.records[k].id.modelId)
    ensures Replace(s, k, updated, reason).result == Success(updated)
    ensures Ok(Replace(s, k, updated, reason).state) && Extends(s, Replace(s, k, updated, reason).state)
  {
    hide PathOk;
    NoCollision(s, k, updated);
    var t := Replace(s, k, updated, reason).state;
    ReplacedRecords(s, k, updated, t);
    ReplacedSnapshots(s, k, updated, t);
    ReplacedActive(s, k, updated, t);
  }

  lemma ReplacedRecords(s: State, k: nat, updated: Artifact, t: State)
    requires RecordsOk(s) && k < |s.records| && NextOf(s.records[k], updated)
    requires t.records == s.records[k := updated]
    requires t.history == s.history[updated.id := s.history[updated.id] + [updated]]
    ensures RecordsOk(t)
  {
    hide PathOk;
    NextPath(s.history[s.records[k].id], s.records[k], updated);
    forall j | 0 <= j < |t.records|
      ensures t.records[j].id in t.history && PathOk(t.history[t.records[j].id], t.records[j])
    {
      if j != k {
        assert s.records[j].id.modelId != s.records[k].id.modelId || j == k by { Distinct(s, j, k); }
      }
    }
    forall i, j | 0 <= i < j < |t.records| ensures t.records[i].id.modelId != t.records[j].id.modelId {
      assert s.records[i].id.modelId != s.records[j].id.modelId;
    }
  }

  lemma Distinct(s: State, j: nat, k: nat)
    requires RecordsOk(s) && j < |s.records| && k < |s.records| && j != k
    ensures s.records[j].id.modelId != s.records[k].id.modelId
  {
  }

  lemma SameModel(s: State, j: nat, k: nat)
    requires RecordsOk(s) && j < |s.records| && k < |s.records| && s.records[j].id.modelId == s.records[k].id.modelId
    ensures j == k
  {
  }

  lemma ReplacedSnapshots(s: State, k: nat, updated: Artifact, t: State)
    requires SnapshotsOk(s) && k < |s.records| && updated.id == s.records[k].id && updated.id in s.history
    requires t.records == s.records[k := updated] && t.snapshots == s.snapshots + [updated]
    requires t.history == s.history[updated.id := s.history[updated.id] + [updated]]
    ensures SnapshotsOk(t)
  {
    forall id | id in t.history ensures exists j :: 0 <= j < |t.records| && t.records[j].id == id {
      var j :| 0 <= j < |s.records| && s.records[j].id == id;
      assert t.records[j].id == id;
    }
    forall a | a in t.snapshots ensures a.id in t.history && a in t.history[a.id] {
      if a in s.snapshots {
        assert a in s.history[a.id];
      }
    }
    forall id, i | id in t.history && 0 <= i < |t.history[id]| ensures t.history[id][i] in t.snapshots {
      if id == updated.id && i == |s.history[id]| {
        assert t.snapshots[|s.snapshots|] == updated;
      } else {
        assert s.history[id][i] in s.snapshots;
      }
    }
  }

  lemma ReplacedActive(s: State, k: nat, updated: Artifact, t: State)
    requires ActiveOk(s) && RecordsOk(s) && k < |s.records| && t.records == s.records[k := updated]
    requires t.active == s.active
    requires s.records[k].status != Promoted || s.active != Some(s.records[k].id.modelId)
    ensures ActiveOk(t)
  {
    hide RecordsOk;
    if s.active.Some? {
      var j :| 0 <= j < |s.records| && s.records[j].id.modelId == s.active.value && s.records[j].status == Promoted;
      assert j != k;
      assert t.records[j] == s.records[j];
    }
  }

  /** A call that registers candidates only. */
  predicate Disciplined(op: Operation) {
    op.DoRegister? ==> op.artifact.status == Candidate
  }

  /** From SEALED on the seal of a current record has passed. */
  lemma SealedHasPassed(s: State, k: nat)
    requires RecordsOk(s) && k < |s.records| && Rank(s.records[k].status) >= 2
    ensures s.records[k].seal.verdict == Pass
  {
    var path := s.history[s.records[k].id];
    assert PathOk(path, s.records[k]);
    assert path[|path| - 1].seal.verdict == Pass;
  }

  /** One call keeps the invariant, removes or alters nothing, and never meets a record collision. */
  lemma StepOk(s: State, op: Operation)
    requires Ok(s) && Disciplined(op)
    ensures Ok(Apply(s, op).state) && Extends(s, Apply(s, op).state)
    ensures Apply(s, op).result != Failure(RecordCollision)
  {
    hide Replace;
    hide Register;
    hide RecordsOk;
    hide SnapshotsOk;
    match op
    case DoRegister(a, checkpointOk) => RegisterOk(s, a, checkpointOk);
    case DoEvaluate(name, report) =>
      var k := Find(s.records, name, 0);
      if k < |s.records| && s.records[k].status == Candidate {
        ReplaceOk(s, k, s.records[k].(status := Evaluated, seal := SealOf(report)), "EVALUATED");
      }
    case DoSeal(name) =>
      var k := Find(s.records, name, 0);
      if k < |s.records| && s.records[k].status == Evaluated && s.records[k].seal.verdict == Pass {
        ReplaceOk(s, k, s.records[k].(status := Sealed), "SEALED");
      }
    case DoPromote(name, _) =>
      var k := Find(s.records, name, 0);
      if k < |s.records| && s.records[k].status == Sealed {
        SealedHasPassed(s, k);
        ReplaceOk(s, k, s.records[k].(status := Promoted), "PROMOTED");
      }
    case DoRetire(name) => RetireOk(s, name);
    case DoActivate(name) => ActivateOk(s, name);
  }

  lemma ClearedIsOk(s: State)
    requires Ok(s)
    ensures Ok(s.(active := None))
  {
    hide PathOk;
  }

  lemma RetireOk(s: State, name: Name)
    requires Ok(s)
    ensures var t := Apply(s, DoRetire(name));
            Ok(t.state) && Extends(s, t.state) && t.result != Failure(RecordCollision)
  {
    hide Replace;
    hide Find;
    hide RecordsOk;
    hide SnapshotsOk;
    hide ActiveOk;
    hide EventsOk;
    var k := Find(s.records, name, 0);
    if k < |s.records| && s.records[k].status == Promoted {
      var cleared := if s.active == Some(s.records[k].id.modelId) then s.(active := None) else s;
      SealedHasPassed(s, k);
      ClearedIsOk(s);
      ReplaceOk(cleared, k, s.records[k].(status := Retired), "RETIRED");
    }
  }

  lemma ActivateOk(s: State, name: Name)
    requires Ok(s)
    ensures var t := Apply(s, DoActivate(name));
            Ok(t.state) && Extends(s, t.state) && t.result != Failure(RecordCollision)
  {
    hide PathOk;
  }

  // ------------------------------------------------------------------ runs

  ghost predicate DisciplinedRun(ops: seq<Operation>) {
    forall i :: 0 <= i < |ops| ==> Disciplined(ops[i])
  }

  /** The state after a run of calls that register candidates only. */
  function Run(ops: seq<Operation>): (s: State)
    requires DisciplinedRun(ops)
    ensures Ok(s)
  {
    if ops == [] then EMPTY
    else
      var before := Run(ops[..|ops| - 1]);
      StepOk(before, ops[|ops| - 1]);
      Apply(before, ops[|ops| - 1]).state
  }

  /** A longer run keeps every snapshot, every history and every event of a shorter one. */
  lemma {:induction false} RunsAppend(ops: seq<Operation>, i: nat)
    requires DisciplinedRun(ops) && i <= |ops|
    ensures Extends(Run(ops[..i]), Run(ops))
    decreases |ops| - i
  {
    if i == |ops| {
      assert ops[..i] == ops;
    } else {
      RunsAppend(ops, i + 1);
      assert ops[..i + 1][..i] == ops[..i];
      StepOk(Run(ops[..i]), ops[i]);
      ExtendsTransitive(Run(ops[..i]), Run(ops[..i + 1]), Run(ops));
    }
  }

  lemma ExtendsTransitive(s: State, t: State, u: State)
    requires Extends(s, t) && Extends(t, u)
    ensures Extends(s, u)
  {
  }

  /** What a reader of the registry relies on: an active model is promoted and its seal has passed. */
  lemma ActiveModelIsSealed(ops: seq<Operation>)
    requires DisciplinedRun(ops) && Run(ops).active.Some?
    ensures var s := Run(ops);
            var k := Find(s.records, Model(s.active.value), 0);
            k < |s.records| && s.records[k].status == Promoted && s.records[k].seal.verdict == Pass
  {
    hide PathOk;
    hide SnapshotsOk;
    hide Apply;
    hide EventsOk;
    var s := Run(ops);
    var j :| 0 <= j < |s.records| && s.records[j].id.modelId == s.active.value && s.records[j].status == Promoted;
    var k := Find(s.records, Model(s.active.value), 0);
    assert Matches(s.records[j], Model(s.active.value));
    SameModel(s, j, k);
    SealedHasPassed(s, k);
  }

  /**
   * The discipline is exact: registering an artifact under new ids keeps the invariant if and only if the
   * artifact is a candidate.
   */
  lemma RegisterKeepsOkIff(s: State, a: Artifact, checkpointOk: Option<bool>)
    requires Ok(s) && checkpointOk != Some(false)
    requires Find(s.records, ArtifactId(a.id), 0) == |s.records| == Find(s.records, Model(a.id.modelId), 0)
    ensures Ok(Register(s, a, checkpointOk).state) <==> a.status == Candidate
  {
    if a.status == Candidate {
      RegisterOk(s, a, checkpointOk);
    } else {
      hide SnapshotsOk;
      hide ActiveOk;
      hide EventsOk;
      var t := Register(s, a, checkpointOk).state;
      assert t.records[|s.records|] == a && t.history[a.id] == [a];
      assert !PathOk(t.history[t.records[|s.records|].id], t.records[|s.records|]);
    }
  }

  /** Without the discipline it fails: an artifact registered as PROMOTED can be activated without a seal. */
  lemma UndisciplinedActivation()
    ensures var a := Artifact(Id("m", "i"), Promoted, Seal(NotEvaluated, "", ""));
            var s := Register(EMPTY, a, None).state;
            HasHistories(s) && Apply(s, DoActivate(Model("m"))).state.active == Some("m")
            && Apply(s, DoActivate(Model("m"))).result.value.seal.verdict != Pass
  {
    var a := Artifact(Id("m", "i"), Promoted, Seal(NotEvaluated, "", ""));
    var s := Register(EMPTY, a, None).state;
    assert s.records == [a];
    assert Find(s.records, Model("m"), 0) == 0;
  }
}
