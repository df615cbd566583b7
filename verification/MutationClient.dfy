/** The two orchestration functions as they run: calls on the repository and on the cloud, one after
    the other. */
module MutationClient {
  import opened Json
  import opened Options
  import opened OperationLedger
  import opened LedgerRuns
  import opened LedgerRepository
  import opened ReplayableMutation

  class CloudService {
    var records: map<string, Record>
    ghost var changes: seq<Message>

    ghost function State(): Cloud
      reads this
    {
      Cloud(records, changes)
    }

    /** `runtime.cloud_command` on a connection that neither loses nor repeats the message; `None`
        stands for the exception of a refusal or a conflict. */
    method Command(key: string, payload: Fields, verdict: Verdict) returns (response: Option<Fields>)
      modifies this
      ensures State() == Process(old(State()), Message(key, payload), verdict)
      ensures response == if key in records && records[key].payload == payload then Some(records[key].response) else None
    {
      if key !in records && verdict.Accept? {
        records := records[key := Record(payload, verdict.response)];
        changes := changes + [Message(key, payload)];
      }
      response := None;
      if key in records && records[key].payload == payload {
        response := Some(records[key].response);
      }
    }
  }

  /** The real objects and the value returned are those of the model's world. */
  ghost predicate Shows(w: World, contents: Ledger, cloud: Cloud, result: Option<Fields>) {
    contents == w.db && cloud == w.cloud && result == if w.returned == [] then None else Some(w.returned[0])
  }

  /** Storing the response is the attempt's last step: with what the update makes of the ledger the
      attempt returns or ends. */
  lemma SettlingIsLast(m: Mutation, w: World, draft: Fields, verdict: Verdict, now: string, db: Ledger, outcome: Outcome)
    requires w.phase.Answered? && w.returned == []
    requires (db, outcome) == UpdateCall(w.db, m.context.scope, w.phase.operation, Completed, SettlePatch(w.phase.response), None, None, now)
    ensures Shows(Finish(m, w, draft, verdict, now), db, w.cloud,
                  if outcome.Done? then Some(ObjectAt(outcome.receipt.entries, "cloudResponse").GetOr(w.phase.response)) else None)
  {
    assert Finish(m, w, draft, verdict, now) == Next(m, w, draft, now);
  }

  method Settle(
    m: Mutation, repository: LocalPlatformOperationRepository, cloud: CloudService, operation: Id,
    response: Fields, now: string, ghost w: World, ghost draft: Fields, ghost verdict: Verdict)
    returns (result: Option<Fields>)
    requires repository.Valid() && Shows(w, repository.contents, cloud.State(), None)
    requires w.phase == Answered(operation, response)
    modifies repository
    ensures repository.Valid() && cloud.State() == old(cloud.State())
    ensures Shows(Finish(m, w, draft, verdict, now), repository.contents, cloud.State(), result)
  {
    var settled := repository.Update(m.context.scope, operation, Completed, SettlePatch(response), None, None, now);
    SettlingIsLast(m, w, draft, verdict, now, repository.contents, settled);
    if settled.Done? {
      result := Some(ObjectAt(settled.receipt.entries, "cloudResponse").GetOr(response));
    } else {
      result := None;
    }
  }

  method Send(
    m: Mutation, repository: LocalPlatformOperationRepository, cloud: CloudService, operation: Id,
    payload: Fields, verdict: Verdict, now: string, ghost w: World, ghost draft: Fields)
    returns (result: Option<Fields>)
    requires repository.Valid() && Shows(w, repository.contents, cloud.State(), None)
    requires w.phase == Ready(operation, payload)
    modifies repository, cloud
    ensures repository.Valid()
    ensures Shows(Finish(m, w, draft, verdict, now), repository.contents, cloud.State(), result)
  {
    var response := cloud.Command(m.cloudKey, payload, verdict);
    ghost var waiting := Act(m, w, draft, verdict, now);
    ghost var answered := Act(m, waiting, draft, verdict, now);
    assert Finish(m, w, draft, verdict, now) == Finish(m, answered, draft, verdict, now);
    result := None;
    if response.Some? {
      result := Settle(m, repository, cloud, operation, response.value, now, answered, draft, verdict);
    }
  }

  method FreezeAndSend(
    m: Mutation, repository: LocalPlatformOperationRepository, cloud: CloudService, operation: Id,
    draft: Fields, verdict: Verdict, now: string, ghost w: World)
    returns (result: Option<Fields>)
    requires repository.Valid() && Shows(w, repository.contents, cloud.State(), None)
    requires w.phase == Drafting(operation)
    modifies repository, cloud
    ensures repository.Valid()
    ensures Shows(Finish(m, w, draft, verdict, now), repository.contents, cloud.State(), result)
  {
    var frozen := repository.Update(m.context.scope, operation, Processing, FreezePatch(m, draft), None, None, now);
    ghost var ready := Act(m, w, draft, verdict, now);
    result := None;
    if frozen.Done? {
      result := Send(m, repository, cloud, operation, FrozenOr(frozen.receipt, draft), verdict, now, ready, draft);
    }
  }

  /** An attempt is its `begin` and what follows the receipt. */
  lemma AttemptBegins(m: Mutation, w: World, draft: Fields, verdict: Verdict, now: string)
    requires w.phase.Idle?
    ensures var (db, outcome) := BeginCall(w.db, m.context, m.Request(), now);
            Act(m, w, draft, verdict, now) == if outcome.Raised? then w.(db := db) else Begun(w.(db := db), outcome.receipt)
    ensures WholeAttempt(m, w, draft, verdict, now) == Finish(m, Act(m, w, draft, verdict, now), draft, verdict, now)
  {
  }

  lemma IdleIsFinished(m: Mutation, w: World, draft: Fields, verdict: Verdict, now: string)
    requires w.phase.Idle?
    ensures Finish(m, w, draft, verdict, now) == w
  {
  }

  /** The undisturbed attempt; `None` stands for an exception. */
  method ReplayableCloudMutation(
    m: Mutation, repository: LocalPlatformOperationRepository, cloud: CloudService,
    draft: Fields, verdict: Verdict, now: string) returns (result: Option<Fields>)
    requires repository.Valid()
    modifies repository, cloud
    ensures repository.Valid()
    ensures Shows(WholeAttempt(m, World(old(repository.contents), old(cloud.State()), Idle, [], []), draft, verdict, now),
                  repository.contents, cloud.State(), result)
  {
    ghost var w := World(repository.contents, cloud.State(), Idle, [], []);
    ghost var next := Act(m, w, draft, verdict, now);
    AttemptBegins(m, w, draft, verdict, now);
    if next.phase.Idle? { IdleIsFinished(m, next, draft, verdict, now); }
    var begun := repository.Begin(m.context, m.Request(), now);
    result := None;
    if begun.Done? {
      var started := begun.receipt;
      var named := NamedOperation(started);
      var frozen := ObjectAt(started.entries, "cloudPayload");
      if started.state.Completed? {
        result := Some(ObjectAt(started.entries, "cloudResponse").GetOr(map[]));
      } else if named.Some? && frozen.Some? {
        result := Send(m, repository, cloud, named.value, frozen.value, verdict, now, next, draft);
      } else if named.Some? {
        result := FreezeAndSend(m, repository, cloud, named.value, draft, verdict, now, next);
      }
    }
  }
}
