/** The registry object. Every method does to the fields what `Registry.Apply` does to the value they hold. */
module ModelRegistry {
  import opened Wrappers
  import opened Registry

  class ModelRegistry {
    var records: seq<Artifact>
    var snapshots: seq<Artifact>
    var history: map<Id, seq<Artifact>>
    var events: seq<Event>
    var activeModelId: Option<string>

    ghost function View(): State
      reads this
    {
      State(records, snapshots, history, events, activeModelId)
    }

    ghost predicate Valid()
      reads this
    {
      HasHistories(View())
    }

    constructor ()
      ensures View() == EMPTY && Valid()
    {
      records, snapshots, history, events, activeModelId := [], [], map[], [], None;
    }

    /** `get`: the index of the first record that has the name as model id or as artifact id. */
    method Get(name: Name) returns (k: nat)
      ensures k == Find(records, name, 0)
    {
      k := 0;
      while k < |records|
        invariant k <= |records| && Find(records, name, 0) == Find(records, name, k)
      {
        if Matches(records[k], name) {
          return;
        }
        k := k + 1;
      }
    }

    method AppendOne(modelId: string, from: Option<Status>, to: Status, reason: string)
      modifies this`events
      ensures events == AppendEvent(old(events), modelId, from, to, reason)
    {
      events := events + [Event(|events| + 1, modelId, from, to, reason)];
    }

    method RegisterArtifact(a: Artifact, checkpointOk: Option<bool>) returns (r: Result<Artifact, Error>)
      requires Valid()
      modifies this
      ensures Step(View(), r) == Apply(old(View()), DoRegister(a, checkpointOk)) && Valid()
    {
      if checkpointOk == Some(false) {
        return Failure(CheckpointMismatch);
      }
      var existing := Get(ArtifactId(a.id));
      if existing < |records| {
        return if records[existing] != a then Failure(IdCollision) else Success(records[existing]);
      }
      var sameModel := Get(Model(a.id.modelId));
      if sameModel < |records| {
        return Failure(ModelIdTaken);
      }
      records := records + [a];
      snapshots := snapshots + [a];
      history := history[a.id := [a]];
      AppendOne(a.id.modelId, None, a.status, "REGISTERED");
      return Success(a);
    }

    /** `_replace` */
    method ReplaceRecord(k: nat, updated: Artifact, reason: string) returns (r: Result<Artifact, Error>)
      requires Valid() && k < |records| && records[k].id == updated.id
      modifies this
      ensures Step(View(), r) == Replace(old(View()), k, updated, reason) && Valid()
    {
      if updated in snapshots {
        return Failure(RecordCollision);
      }
      var current := records[k];
      snapshots := snapshots + [updated];
      records := records[k := updated];
      history := history[current.id := history[current.id] + [updated]];
      AppendOne(current.id.modelId, Some(current.status), updated.status, reason);
      return Success(updated);
    }

    method Evaluate(name: Name, report: Report) returns (r: Result<Artifact, Error>)
      requires Valid()
      modifies this
      ensures Step(View(), r) == Apply(old(View()), DoEvaluate(name, report)) && Valid()
    {
      var k := Get(name);
      if k == |records| {
        return Failure(NotRegistered);
      }
      if records[k].status != Candidate {
        return Failure(WrongStatus);
      }
      if !report.hashMatches || !report.identityMatches {
        return Failure(ReportMismatch);
      }
      r := ReplaceRecord(k, records[k].(status := Evaluated, seal := SealOf(report)), "EVALUATED");
    }

    method SealModel(name: Name) returns (r: Result<Artifact, Error>)
      requires Valid()
      modifies this
      ensures Step(View(), r) == Apply(old(View()), DoSeal(name)) && Valid()
    {
      var k := Get(name);
      if k == |records| {
        return Failure(NotRegistered);
      }
      if records[k].status != Evaluated {
        return Failure(WrongStatus);
      }
      if records[k].seal.verdict != Pass {
        return Failure(NotPassed);
      }
      r := ReplaceRecord(k, records[k].(status := Sealed), "SEALED");
    }

    method Promote(name: Name, checksPass: bool) returns (r: Result<Artifact, Error>)
      requires Valid()
      modifies this
      ensures Step(View(), r) == Apply(old(View()), DoPromote(name, checksPass)) && Valid()
    {
      var k := Get(name);
      if k == |records| {
        return Failure(NotRegistered);
      }
      if records[k].status != Sealed {
        return Failure(WrongStatus);
      }
      if !checksPass {
        return Failure(PromotionDenied);
      }
      r := ReplaceRecord(k, records[k].(status := Promoted), "PROMOTED");
    }

    method Retire(name: Name) returns (r: Result<Artifact, Error>)
      requires Valid()
      modifies this
      ensures Step(View(), r) == Apply(old(View()), DoRetire(name)) && Valid()
    {
      var k := Get(name);
      if k == |records| {
        return Failure(NotRegistered);
      }
      if records[k].status != Promoted {
        return Failure(WrongStatus);
      }
      if activeModelId == Some(records[k].id.modelId) {
        activeModelId := None;
      }
      r := ReplaceRecord(k, records[k].(status := Retired), "RETIRED");
    }

    /** `activate`, and `rollback`, which is the same call. */
    method Activate(name: Name) returns (r: Result<Artifact, Error>)
      requires Valid()
      modifies this
      ensures Step(View(), r) == Apply(old(View()), DoActivate(name)) && Valid()
    {
      var k := Get(name);
      if k == |records| {
        return Failure(NotRegistered);
      }
      if records[k].status != Promoted {
        return Failure(WrongStatus);
      }
      activeModelId := Some(records[k].id.modelId);
      AppendOne(records[k].id.modelId, Some(records[k].status), records[k].status, "ACTIVE_SWITCH");
      return Success(records[k]);
    }
  }
}
