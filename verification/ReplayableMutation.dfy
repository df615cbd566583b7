/** A UI mutation frozen in the local ledger before it is sent to the cloud, under crashes, lost and
    repeated messages, and a payload factory that never answers the same twice. */
module ReplayableMutation {
  import opened Json
  import opened Options
  import opened OperationLedger
  import opened LedgerRuns

  /** The arguments every attempt of one mutation repeats. The two keys are derived from the
      caller's idempotency key, the method and the path; the intent is what `begin` stores. */
  datatype Mutation = Mutation(
    context: Context, operationKey: string, cloudKey: string,
    commandType: string, aggregateType: string, aggregateId: string, intent: Fields)
  {
    function Request(): Request {
      LedgerRuns.Request(operationKey, commandType, aggregateType, aggregateId, intent, BlockedInitial())
    }

    function Key(): Key {
      Supplied(operationKey)
    }
  }

  // ---------- the cloud ----------

  datatype Message = Message(key: string, payload: Fields)

  datatype Record = Record(payload: Fields, response: Fields)

  /** What the cloud remembers per key, and every change of its state in order. */
  datatype Cloud = Cloud(records: map<string, Record>, changes: seq<Message>)

  datatype Verdict = Refuse | Accept(response: Fields)

  /** A known key answers again or conflicts, and changes nothing; a new one is refused without a
      trace or applied once. */
  function Process(cloud: Cloud, message: Message, verdict: Verdict): Cloud {
    if message.key in cloud.records || verdict.Refuse? then cloud
    else Cloud(cloud.records[message.key := Record(message.payload, verdict.response)], cloud.changes + [message])
  }

  function ChangesUnder(changes: seq<Message>, key: string): nat {
    if changes == [] then 0
    else ChangesUnder(changes[..|changes| - 1], key) + if changes[|changes| - 1].key == key then 1 else 0
  }

  // ---------- the client ----------

  /** How far the attempt under way has come. */
  datatype Phase =
    | Idle
    | Drafting(operation: Id)
    | Ready(operation: Id, payload: Fields)
    | InFlight(operation: Id, payload: Fields)
    | Answered(operation: Id, response: Fields)

  /** `sent` is every message ever put on the network: each may reach the cloud late, repeatedly or
      never. `returned` is what the attempts returned to their callers. */
  datatype World = World(db: Ledger, cloud: Cloud, phase: Phase, sent: seq<Message>, returned: seq<Fields>)

  datatype Step =
    | Advance(draft: Fields, now: string)
    | Crash
    | Deliver(index: nat, verdict: Verdict)
    | OtherCall(call: Call)
    | OtherMessage(message: Message, verdict: Verdict)

  function FreezePatch(m: Mutation, draft: Fields): Fields {
    map["cloudPayload" := Object(draft),
        "cloudPayloadHash" := Object(map["sha256" := Object(draft)]),
        "cloudIdempotencyKey" := Text(m.cloudKey)]
  }

  function SettlePatch(response: Fields): Fields {
    map["cloudResponse" := Object(response)]
  }

  function Returning(w: World, response: Fields): World {
    w.(phase := Idle, returned := w.returned + [response])
  }

  /** The branches after `begin`: replay a completed operation, resend a frozen payload, or draft. */
  function Begun(w: World, started: Receipt): World {
    if started.state.Completed? then Returning(w, ObjectAt(started.entries, "cloudResponse").GetOr(map[]))
    else
      match NamedOperation(started)
      case None => w.(phase := Idle)
      case Some(op) =>
        match ObjectAt(started.entries, "cloudPayload")
        case Some(payload) => w.(phase := Ready(op, payload))
        case None => w.(phase := Drafting(op))
  }

  /** `started.get("cloudPayload") or frozen_payload`. */
  function FrozenOr(started: Receipt, draft: Fields): Fields {
    match ObjectAt(started.entries, "cloudPayload")
    case Some(p) => if p == map[] then draft else p
    case None => draft
  }

  /** The client's next step. An exception, from the ledger or from the cloud call, ends the attempt. */
  ghost function Next(m: Mutation, w: World, draft: Fields, now: string): World {
    match w.phase
    case Idle =>
      var (db, outcome) := BeginCall(w.db, m.context, m.Request(), now);
      if outcome.Raised? then w.(db := db) else Begun(w.(db := db), outcome.receipt)
    case Drafting(op) =>
      var (db, outcome) := UpdateCall(w.db, m.context.scope, op, Processing, FreezePatch(m, draft), None, None, now);
      if outcome.Raised? then w.(db := db, phase := Idle)
      else w.(db := db, phase := Ready(op, FrozenOr(outcome.receipt, draft)))
    case Ready(op, payload) =>
      w.(phase := InFlight(op, payload), sent := w.sent + [Message(m.cloudKey, payload)])
    case InFlight(op, payload) =>
      if m.cloudKey in w.cloud.records && w.cloud.records[m.cloudKey].payload == payload
      then w.(phase := Answered(op, w.cloud.records[m.cloudKey].response))
      else w.(phase := Idle)
    case Answered(op, response) =>
      var (db, outcome) := UpdateCall(w.db, m.context.scope, op, Completed, SettlePatch(response), None, None, now);
      if outcome.Raised? then w.(db := db, phase := Idle)
      else Returning(w.(db := db), ObjectAt(outcome.receipt.entries, "cloudResponse").GetOr(response))
  }

  /** The step is the mutation's own, a delivery of one of its messages, or somebody else's: a
      ledger call that neither begins under its operation key nor names its operation, or a cloud
      message under another key. */
  ghost predicate Allowed(m: Mutation, w: World, step: Step) {
    match step
    case Advance(_, _) => true
    case Crash => true
    case Deliver(i, _) => i < |w.sent|
    case OtherCall(call) => Foreign(w.db, call, m.context.scope, m.Key())
    case OtherMessage(message, _) => message.key != m.cloudKey
  }

  ghost function Take(m: Mutation, w: World, step: Step): World {
    if !Allowed(m, w, step) then w
    else
      match step
      case Advance(draft, now) => Next(m, w, draft, now)
      case Crash => w.(phase := Idle)
      case Deliver(i, verdict) => w.(cloud := Process(w.cloud, w.sent[i], verdict))
      case OtherCall(call) => w.(db := Apply(w.db, call).0)
      case OtherMessage(message, verdict) => w.(cloud := Process(w.cloud, message, verdict))
  }

  ghost function Play(m: Mutation, w: World, steps: seq<Step>): World {
    if steps == [] then w
    else Take(m, Play(m, w, steps[..|steps| - 1]), steps[|steps| - 1])
  }

  /** Before the first attempt: neither ledger nor cloud knows the mutation. */
  ghost predicate Start(m: Mutation, w: World) {
    && m.operationKey != ""
    && WellFormed(w.db) && !Taken(w.db, m.context.scope, m.Key())
    && m.cloudKey !in w.cloud.records && ChangesUnder(w.cloud.changes, m.cloudKey) == 0
    && w.phase == Idle && w.sent == [] && w.returned == []
  }

  // ---------- the invariant ----------

  /** No attempt has begun. */
  ghost predicate Unclaimed(m: Mutation, w: World) {
    && !Taken(w.db, m.context.scope, m.Key())
    && w.phase == Idle && w.sent == [] && w.returned == [] && m.cloudKey !in w.cloud.records
  }

  /** The operation is begun but its payload not frozen, so nothing was ever sent. */
  predicate Unfrozen(m: Mutation, w: World, op: Id, receipt: Receipt) {
    && receipt.state == Processing && ObjectAt(receipt.entries, "cloudPayload") == None
    && (w.phase == Idle || w.phase == Drafting(op))
    && w.sent == [] && w.returned == [] && m.cloudKey !in w.cloud.records
  }

  ghost predicate OnlySent(sent: seq<Message>, message: Message) {
    forall i :: 0 <= i < |sent| ==> sent[i] == message
  }

  /** Every return is the response the cloud has on record under `key`. */
  ghost predicate OnlyReturned(returned: seq<Fields>, records: map<string, Record>, key: string) {
    forall i :: 0 <= i < |returned| ==> key in records && returned[i] == records[key].response
  }

  /** The payload is frozen: it is the only one sent, the only one the cloud can know. */
  ghost predicate Frozen(m: Mutation, w: World, op: Id, receipt: Receipt, payload: Fields) {
    && ObjectAt(receipt.entries, "cloudPayload") == Some(payload)
    && OnlySent(w.sent, Message(m.cloudKey, payload))
    && (m.cloudKey in w.cloud.records ==> w.cloud.records[m.cloudKey].payload == payload)
    && OnlyReturned(w.returned, w.cloud.records, m.cloudKey)
    && (match receipt.state
        case Processing =>
          w.returned == [] &&
          (match w.phase
           case Idle => true
           case Drafting(_) => false
           case Ready(o, p) => o == op && p == payload
           case InFlight(o, p) => o == op && p == payload
           case Answered(o, response) =>
             o == op && m.cloudKey in w.cloud.records && response == w.cloud.records[m.cloudKey].response)
        case Completed =>
          && w.phase == Idle && m.cloudKey in w.cloud.records
          && ObjectAt(receipt.entries, "cloudResponse") == Some(w.cloud.records[m.cloudKey].response)
        case _ => false)
  }

  ghost predicate Claimed(m: Mutation, w: World, ref: OpRef) {
    && Holds(w.db, ref, m.context.scope, m.Key())
    && var r := w.db.operations[ref];
       && r.command.commandType == m.commandType && r.command.payloadHash == PayloadDigest(m.intent)
       && (Unfrozen(m, w, ref.operation, r.manifest.receipt)
           || exists p :: Frozen(m, w, ref.operation, r.manifest.receipt, p))
  }

  ghost predicate Invariant(m: Mutation, w: World) {
    && m.operationKey != "" && WellFormed(w.db)
    && ChangesUnder(w.cloud.changes, m.cloudKey) == (if m.cloudKey in w.cloud.records then 1 else 0)
    && (Unclaimed(m, w) || exists ref :: Claimed(m, w, ref))
  }

  // ---------- each step keeps it ----------

  lemma ChangesSnoc(changes: seq<Message>, message: Message, key: string)
    ensures ChangesUnder(changes + [message], key) == ChangesUnder(changes, key) + if message.key == key then 1 else 0
  {
  }

  lemma ProcessCounts(cloud: Cloud, message: Message, verdict: Verdict, key: string)
    requires ChangesUnder(cloud.changes, key) == (if key in cloud.records then 1 else 0)
    ensures var c := Process(cloud, message, verdict);
            ChangesUnder(c.changes, key) == (if key in c.records then 1 else 0)
  {
  }

  lemma EntriesOfReplay(op: Id, command: Id, receipt: Receipt)
    ensures var r := Replayed(op, command, receipt);
            && r.state == receipt.state && NamedOperation(r) == Some(op)
            && ObjectAt(r.entries, "cloudPayload") == ObjectAt(receipt.entries, "cloudPayload")
            && ObjectAt(r.entries, "cloudResponse") == ObjectAt(receipt.entries, "cloudResponse")
  {
  }

  lemma EntriesOfBegin(m: Mutation, command: Id, op: Id, now: string)
    ensures var r := BegunReceipt(BlockedInitial(), command, op, m.context, now);
            && r.state == Processing && NamedOperation(r) == Some(op)
            && ObjectAt(r.entries, "cloudPayload") == None
  {
  }

  lemma EntriesOfFreeze(m: Mutation, previous: Receipt, draft: Fields, now: string)
    ensures var r := UpdatedReceipt(previous, Processing, FreezePatch(m, draft), None, None, now);
            && r.state == Processing && ObjectAt(r.entries, "cloudPayload") == Some(draft)
            && FrozenOr(r, draft) == draft
  {
  }

  /** Besides the payload, freezing stores its hash and the key it will be sent under, and keeps every
      other entry. */
  lemma FreezeStores(m: Mutation, previous: Receipt, draft: Fields, now: string)
    ensures var entries := UpdatedReceipt(previous, Processing, FreezePatch(m, draft), None, None, now).entries;
            && Says(entries, "cloudPayload", Object(draft)) && Says(entries, "cloudIdempotencyKey", Text(m.cloudKey))
            && Says(entries, "cloudPayloadHash", Object(map["sha256" := Object(draft)]))
            && CarriesOver(previous.entries, entries, {"cloudPayload", "cloudPayloadHash", "cloudIdempotencyKey", "errorCode", "error"})
  {
  }

  lemma EntriesOfSettle(previous: Receipt, response: Fields, now: string)
    ensures var r := UpdatedReceipt(previous, Completed, SettlePatch(response), None, None, now);
            && r.state == Completed && ObjectAt(r.entries, "cloudResponse") == Some(response)
            && ObjectAt(r.entries, "cloudPayload") == ObjectAt(previous.entries, "cloudPayload")
  {
  }

  lemma FirstBeginKeeps(m: Mutation, w: World, draft: Fields, now: string)
    requires Invariant(m, w) && Unclaimed(m, w)
    ensures Invariant(m, Next(m, w, draft, now))
  {
    BeginFree(w.db, m.context, m.Request(), now);
    EffectOfCall(w.db, Begin(m.context, m.Request(), now));
    var ref := NewRef(w.db, m.context, m.Request());
    EntriesOfBegin(m, FirstFreeId(w.db, m.Request()), ref.operation, now);
    assert Claimed(m, Next(m, w, draft, now), ref);
  }

  /** A receipt that says of an operation what `receipt` does. */
  predicate Repeats(started: Receipt, op: Id, receipt: Receipt) {
    && started.state == receipt.state && NamedOperation(started) == Some(op)
    && ObjectAt(started.entries, "cloudPayload") == ObjectAt(receipt.entries, "cloudPayload")
    && ObjectAt(started.entries, "cloudResponse") == ObjectAt(receipt.entries, "cloudResponse")
  }

  lemma UnfrozenGoesOn(m: Mutation, w: World, op: Id, receipt: Receipt, started: Receipt)
    requires w.phase == Idle && Unfrozen(m, w, op, receipt) && Repeats(started, op, receipt)
    ensures Unfrozen(m, Begun(w, started), op, receipt)
  {
  }

  lemma FrozenGoesOn(m: Mutation, w: World, op: Id, receipt: Receipt, started: Receipt, payload: Fields)
    requires w.phase == Idle && Frozen(m, w, op, receipt, payload) && Repeats(started, op, receipt)
    ensures Frozen(m, Begun(w, started), op, receipt, payload)
  {
  }

  lemma ClaimGoesOn(m: Mutation, w: World, ref: OpRef, started: Receipt)
    requires Claimed(m, w, ref) && w.phase == Idle && Repeats(started, ref.operation, w.db.operations[ref].manifest.receipt)
    ensures Claimed(m, Begun(w, started), ref)
  {
    var receipt := w.db.operations[ref].manifest.receipt;
    if p :| Frozen(m, w, ref.operation, receipt, p) {
      FrozenGoesOn(m, w, ref.operation, receipt, started, p);
    } else {
      UnfrozenGoesOn(m, w, ref.operation, receipt, started);
    }
  }

  lemma BeginAgainKeeps(m: Mutation, w: World, ref: OpRef, draft: Fields, now: string)
    requires Invariant(m, w) && Claimed(m, w, ref) && w.phase == Idle
    ensures Invariant(m, Next(m, w, draft, now))
  {
    BeginHeld(w.db, m.context, m.Request(), now, ref);
    var r := w.db.operations[ref];
    EntriesOfReplay(ref.operation, r.command.id, r.manifest.receipt);
    ClaimGoesOn(m, w, ref, Replayed(ref.operation, r.command.id, r.manifest.receipt));
    assert Claimed(m, Next(m, w, draft, now), ref);
  }

  /** The rows of a claimed operation after an update, its claim unchanged. */
  lemma UpdateOfClaimed(m: Mutation, w: World, ref: OpRef, state: State, patch: Fields, now: string)
    requires Invariant(m, w) && Claimed(m, w, ref) && w.db.operations[ref].manifest.receipt.state == Processing
    ensures var (db, outcome) := UpdateCall(w.db, m.context.scope, ref.operation, state, patch, None, None, now);
            var r := w.db.operations[ref];
            && WellFormed(db) && Holds(db, ref, m.context.scope, m.Key())
            && db.operations[ref].command.commandType == r.command.commandType
            && db.operations[ref].command.payloadHash == r.command.payloadHash
            && db.operations[ref].manifest.receipt == UpdatedReceipt(r.manifest.receipt, state, patch, None, None, now)
            && outcome == Done(db.operations[ref].manifest.receipt)
  {
    EffectOfCall(w.db, Update(m.context.scope, ref.operation, state, patch, None, None, now));
  }

  lemma FreezeKeeps(m: Mutation, w: World, ref: OpRef, draft: Fields, now: string)
    requires Invariant(m, w) && Claimed(m, w, ref) && w.phase.Drafting?
    ensures Invariant(m, Next(m, w, draft, now))
  {
    var receipt := w.db.operations[ref].manifest.receipt;
    UpdateOfClaimed(m, w, ref, Processing, FreezePatch(m, draft), now);
    EntriesOfFreeze(m, receipt, draft, now);
    var w' := Next(m, w, draft, now);
    assert Frozen(m, w', ref.operation, w'.db.operations[ref].manifest.receipt, draft);
    assert Claimed(m, w', ref);
  }

  lemma SettleKeeps(m: Mutation, w: World, ref: OpRef, draft: Fields, now: string)
    requires Invariant(m, w) && Claimed(m, w, ref) && w.phase.Answered?
    ensures Invariant(m, Next(m, w, draft, now))
  {
    var receipt := w.db.operations[ref].manifest.receipt;
    var p :| Frozen(m, w, ref.operation, receipt, p);
    UpdateOfClaimed(m, w, ref, Completed, SettlePatch(w.phase.response), now);
    EntriesOfSettle(receipt, w.phase.response, now);
    var w' := Next(m, w, draft, now);
    assert Frozen(m, w', ref.operation, w'.db.operations[ref].manifest.receipt, p);
    assert Claimed(m, w', ref);
  }

  /** Sending, receiving an answer or a refusal, and crashing leave the ledger alone. */
  lemma QuietAdvanceKeeps(m: Mutation, w: World, ref: OpRef, draft: Fields, now: string)
    requires Invariant(m, w) && Claimed(m, w, ref) && (w.phase.Ready? || w.phase.InFlight?)
    ensures Invariant(m, Next(m, w, draft, now))
  {
    var receipt := w.db.operations[ref].manifest.receipt;
    var p :| Frozen(m, w, ref.operation, receipt, p);
    var w' := Next(m, w, draft, now);
    assert Frozen(m, w', ref.operation, receipt, p);
    assert Claimed(m, w', ref);
  }

  lemma AdvanceKeeps(m: Mutation, w: World, draft: Fields, now: string)
    requires Invariant(m, w)
    ensures Invariant(m, Next(m, w, draft, now))
  {
    if Unclaimed(m, w) {
      FirstBeginKeeps(m, w, draft, now);
    } else {
      var ref :| Claimed(m, w, ref);
      match w.phase {
        case Idle => BeginAgainKeeps(m, w, ref, draft, now);
        case Drafting(_) => FreezeKeeps(m, w, ref, draft, now);
        case Ready(_, _) => QuietAdvanceKeeps(m, w, ref, draft, now);
        case InFlight(_, _) => QuietAdvanceKeeps(m, w, ref, draft, now);
        case Answered(_, _) => SettleKeeps(m, w, ref, draft, now);
      }
    }
  }

  lemma CrashKeeps(m: Mutation, w: World)
    requires Invariant(m, w)
    ensures Invariant(m, w.(phase := Idle))
  {
    if !Unclaimed(m, w) {
      var ref :| Claimed(m, w, ref);
      var receipt := w.db.operations[ref].manifest.receipt;
      if p :| Frozen(m, w, ref.operation, receipt, p) {
        assert Frozen(m, w.(phase := Idle), ref.operation, receipt, p);
      }
      assert Claimed(m, w.(phase := Idle), ref);
    }
  }

  /** A message of the mutation reaches the cloud, for the first time or once more. */
  lemma DeliverKeeps(m: Mutation, w: World, i: nat, verdict: Verdict)
    requires Invariant(m, w) && i < |w.sent|
    ensures Invariant(m, w.(cloud := Process(w.cloud, w.sent[i], verdict)))
  {
    ProcessCounts(w.cloud, w.sent[i], verdict, m.cloudKey);
    var ref :| Claimed(m, w, ref);
    var receipt := w.db.operations[ref].manifest.receipt;
    var p :| Frozen(m, w, ref.operation, receipt, p);
    var w' := w.(cloud := Process(w.cloud, w.sent[i], verdict));
    assert Frozen(m, w', ref.operation, receipt, p);
    assert Claimed(m, w', ref);
  }

  /** The cloud may change in any way that leaves the record under the mutation's key alone. */
  lemma CloudFrame(m: Mutation, w: World, cloud: Cloud)
    requires Invariant(m, w)
    requires ChangesUnder(cloud.changes, m.cloudKey) == ChangesUnder(w.cloud.changes, m.cloudKey)
    requires m.cloudKey in cloud.records <==> m.cloudKey in w.cloud.records
    requires m.cloudKey in cloud.records ==> cloud.records[m.cloudKey] == w.cloud.records[m.cloudKey]
    ensures Invariant(m, w.(cloud := cloud))
  {
    var w' := w.(cloud := cloud);
    if Unclaimed(m, w) {
      assert Unclaimed(m, w');
    } else {
      var ref :| Claimed(m, w, ref);
      var receipt := w.db.operations[ref].manifest.receipt;
      if p :| Frozen(m, w, ref.operation, receipt, p) {
        assert OnlyReturned(w'.returned, w'.cloud.records, m.cloudKey);
        assert Frozen(m, w', ref.operation, receipt, p);
      }
      assert Claimed(m, w', ref);
    }
  }

  lemma OtherMessageKeeps(m: Mutation, w: World, message: Message, verdict: Verdict)
    requires Invariant(m, w) && message.key != m.cloudKey
    ensures Invariant(m, w.(cloud := Process(w.cloud, message, verdict)))
  {
    ChangesSnoc(w.cloud.changes, message, m.cloudKey);
    CloudFrame(m, w, Process(w.cloud, message, verdict));
  }

  /** The ledger may change in any way that leaves the key unclaimed or its operation alone. */
  lemma LedgerFrame(m: Mutation, w: World, db: Ledger)
    requires Invariant(m, w) && WellFormed(db)
    requires !Taken(w.db, m.context.scope, m.Key()) ==> !Taken(db, m.context.scope, m.Key())
    requires forall ref :: Holds(w.db, ref, m.context.scope, m.Key()) ==>
               ref in db.operations && db.operations[ref] == w.db.operations[ref]
    ensures Invariant(m, w.(db := db))
  {
    var w' := w.(db := db);
    if Unclaimed(m, w) {
      assert Unclaimed(m, w');
    } else {
      var ref :| Claimed(m, w, ref);
      var receipt := w.db.operations[ref].manifest.receipt;
      if p :| Frozen(m, w, ref.operation, receipt, p) {
        assert Frozen(m, w', ref.operation, receipt, p);
      }
      assert Claimed(m, w', ref);
    }
  }

  lemma StepKeeps(m: Mutation, w: World, step: Step)
    requires Invariant(m, w)
    ensures Invariant(m, Take(m, w, step))
  {
    if Allowed(m, w, step) {
      match step {
        case Advance(draft, now) => AdvanceKeeps(m, w, draft, now);
        case Crash => CrashKeeps(m, w);
        case Deliver(i, verdict) => DeliverKeeps(m, w, i, verdict);
        case OtherCall(call) =>
          ForeignCallFrame(w.db, call, m.context.scope, m.Key());
          LedgerFrame(m, w, Apply(w.db, call).0);
        case OtherMessage(message, verdict) => OtherMessageKeeps(m, w, message, verdict);
      }
    }
  }

  lemma {:induction false} PlayKeeps(m: Mutation, w: World, steps: seq<Step>)
    requires Start(m, w)
    ensures Invariant(m, Play(m, w, steps))
  {
    if steps != [] {
      PlayKeeps(m, w, steps[..|steps| - 1]);
      StepKeeps(m, Play(m, w, steps[..|steps| - 1]), steps[|steps| - 1]);
    }
  }

  // ---------- the theorems ----------

  /** Exactly once across crashes: in every run, all messages carry one key and one payload, the
      cloud's state changes at most once for it, and every normal return is the response of that
      one change. */
  lemma ExactlyOnce(m: Mutation, start: World, steps: seq<Step>)
    requires Start(m, start)
    ensures var w := Play(m, start, steps);
            && (forall i, j :: 0 <= i < |w.sent| && 0 <= j < |w.sent| ==> w.sent[i] == w.sent[j])
            && (forall i :: 0 <= i < |w.sent| ==> w.sent[i].key == m.cloudKey)
            && ChangesUnder(w.cloud.changes, m.cloudKey) <= 1
            && OnlyReturned(w.returned, w.cloud.records, m.cloudKey)
            && (m.cloudKey in w.cloud.records ==>
                  && ChangesUnder(w.cloud.changes, m.cloudKey) == 1
                  && OnlySent(w.sent, Message(m.cloudKey, w.cloud.records[m.cloudKey].payload)))
  {
    PlayKeeps(m, start, steps);
    var w := Play(m, start, steps);
    if !Unclaimed(m, w) {
      var ref :| Claimed(m, w, ref);
      var receipt := w.db.operations[ref].manifest.receipt;
      if !Unfrozen(m, w, ref.operation, receipt) {
        var p :| Frozen(m, w, ref.operation, receipt, p);
      }
    }
  }

  /** Once an attempt has returned, the next one returns the same response from the ledger alone:
      nothing is sent and nothing changes. */
  lemma ReturnedIsReplayed(m: Mutation, w: World, draft: Fields, now: string)
    requires Invariant(m, w) && w.returned != []
    ensures Next(m, w, draft, now) == w.(returned := w.returned + [w.returned[0]])
  {
    var ref :| Claimed(m, w, ref);
    var r := w.db.operations[ref];
    BeginHeld(w.db, m.context, m.Request(), now, ref);
    EntriesOfReplay(ref.operation, r.command.id, r.manifest.receipt);
    var p :| Frozen(m, w, ref.operation, r.manifest.receipt, p);
  }

  // ---------- one attempt from beginning to end ----------

  function Remaining(phase: Phase): nat {
    match phase
    case Idle => 0
    case Answered(_, _) => 1
    case InFlight(_, _) => 2
    case Ready(_, _) => 3
    case Drafting(_) => 4
  }

  /** The client's next step; when that sends the message, the cloud processes it at once. */
  ghost function Act(m: Mutation, w: World, draft: Fields, verdict: Verdict, now: string): (r: World)
    ensures !w.phase.Idle? ==> Remaining(r.phase) < Remaining(w.phase)
  {
    var next := Next(m, w, draft, now);
    if next.phase.InFlight? then next.(cloud := Process(next.cloud, Message(m.cloudKey, next.phase.payload), verdict))
    else next
  }

  /** The rest of an attempt that nothing interrupts. */
  ghost function Finish(m: Mutation, w: World, draft: Fields, verdict: Verdict, now: string): World
    decreases Remaining(w.phase)
  {
    if w.phase.Idle? then w else Finish(m, Act(m, w, draft, verdict, now), draft, verdict, now)
  }

  /** A whole attempt that nothing interrupts. */
  ghost function WholeAttempt(m: Mutation, w: World, draft: Fields, verdict: Verdict, now: string): World {
    Finish(m, Act(m, w, draft, verdict, now), draft, verdict, now)
  }

  ghost predicate WillAnswer(m: Mutation, w: World, verdict: Verdict) {
    verdict.Accept? || m.cloudKey in w.cloud.records
  }

  /** From `w` to `r` an attempt has either gone on or returned. */
  ghost predicate GoneOnOrReturned(m: Mutation, w: World, r: World) {
    && |r.returned| == |w.returned| + (if r.phase.Idle? then 1 else 0)
    && (r.phase.InFlight? ==> r.sent != [] && r.sent[|r.sent| - 1] == Message(m.cloudKey, r.phase.payload))
    && r.cloud == w.cloud
  }

  lemma UnclaimedGoesOn(m: Mutation, w: World, draft: Fields, now: string)
    requires Invariant(m, w) && Unclaimed(m, w)
    ensures GoneOnOrReturned(m, w, Next(m, w, draft, now))
  {
  }

  lemma BeginAgainGoesOn(m: Mutation, w: World, ref: OpRef, draft: Fields, now: string)
    requires Invariant(m, w) && Claimed(m, w, ref) && w.phase.Idle?
    ensures GoneOnOrReturned(m, w, Next(m, w, draft, now))
  {
    BeginHeld(w.db, m.context, m.Request(), now, ref);
    EntriesOfReplay(ref.operation, w.db.operations[ref].command.id, w.db.operations[ref].manifest.receipt);
  }

  lemma FreezingGoesOn(m: Mutation, w: World, ref: OpRef, draft: Fields, now: string)
    requires Invariant(m, w) && Claimed(m, w, ref) && w.phase.Drafting?
    ensures GoneOnOrReturned(m, w, Next(m, w, draft, now))
  {
    UpdateOfClaimed(m, w, ref, Processing, FreezePatch(m, draft), now);
  }

  lemma SettlingReturns(m: Mutation, w: World, ref: OpRef, draft: Fields, now: string)
    requires Invariant(m, w) && Claimed(m, w, ref) && w.phase.Answered?
    ensures GoneOnOrReturned(m, w, Next(m, w, draft, now))
  {
    UpdateOfClaimed(m, w, ref, Completed, SettlePatch(w.phase.response), now);
  }

  lemma AnswerGoesOn(m: Mutation, w: World, ref: OpRef, draft: Fields, now: string)
    requires Claimed(m, w, ref) && w.phase.InFlight? && m.cloudKey in w.cloud.records
    ensures GoneOnOrReturned(m, w, Next(m, w, draft, now))
  {
  }

  lemma ClaimedGoesOnOrReturns(m: Mutation, w: World, draft: Fields, now: string)
    requires Invariant(m, w) && !Unclaimed(m, w)
    requires w.phase.InFlight? ==> m.cloudKey in w.cloud.records
    ensures GoneOnOrReturned(m, w, Next(m, w, draft, now))
  {
    var ref :| Claimed(m, w, ref);
    match w.phase {
      case Idle => BeginAgainGoesOn(m, w, ref, draft, now);
      case Drafting(_) => FreezingGoesOn(m, w, ref, draft, now);
      case Ready(_, _) =>
      case InFlight(_, _) => AnswerGoesOn(m, w, ref, draft, now);
      case Answered(_, _) => SettlingReturns(m, w, ref, draft, now);
    }
  }

  /** With a willing cloud, a step of an undisturbed attempt either goes on or returns. */
  lemma ActGoesOnOrReturns(m: Mutation, w: World, draft: Fields, verdict: Verdict, now: string)
    requires Invariant(m, w) && WillAnswer(m, w, verdict)
    requires w.phase.InFlight? ==> m.cloudKey in w.cloud.records
    ensures var r := Act(m, w, draft, verdict, now);
            && Invariant(m, r) && WillAnswer(m, r, verdict)
            && (r.phase.InFlight? ==> m.cloudKey in r.cloud.records)
            && |r.returned| == |w.returned| + if r.phase.Idle? then 1 else 0
  {
    var next := Next(m, w, draft, now);
    AdvanceKeeps(m, w, draft, now);
    if Unclaimed(m, w) { UnclaimedGoesOn(m, w, draft, now); } else { ClaimedGoesOnOrReturns(m, w, draft, now); }
    if next.phase.InFlight? { DeliverKeeps(m, next, |next.sent| - 1, verdict); }
  }

  lemma {:induction false} FinishReturns(m: Mutation, w: World, draft: Fields, verdict: Verdict, now: string)
    requires Invariant(m, w) && WillAnswer(m, w, verdict) && !w.phase.Idle?
    requires w.phase.InFlight? ==> m.cloudKey in w.cloud.records
    ensures |Finish(m, w, draft, verdict, now).returned| == |w.returned| + 1
    decreases Remaining(w.phase)
  {
    ActGoesOnOrReturns(m, w, draft, verdict, now);
    var r := Act(m, w, draft, verdict, now);
    if !r.phase.Idle? { FinishReturns(m, r, draft, verdict, now); }
  }

  /** Recovery: whatever crashes and losses came before, the next attempt that nothing interrupts
      returns to its caller, provided the cloud accepts the message or already has. */
  lemma AttemptReturns(m: Mutation, start: World, steps: seq<Step>, draft: Fields, verdict: Verdict, now: string)
    requires Start(m, start) && Play(m, start, steps).phase.Idle? && WillAnswer(m, Play(m, start, steps), verdict)
    ensures |WholeAttempt(m, Play(m, start, steps), draft, verdict, now).returned| == |Play(m, start, steps).returned| + 1
  {
    var w := Play(m, start, steps);
    PlayKeeps(m, start, steps);
    ActGoesOnOrReturns(m, w, draft, verdict, now);
    var r := Act(m, w, draft, verdict, now);
    if !r.phase.Idle? { FinishReturns(m, r, draft, verdict, now); }
  }

  lemma PlayTwo(m: Mutation, w: World, steps: seq<Step>, more: seq<Step>)
    ensures Play(m, w, steps + more) == Play(m, Play(m, w, steps), more)
  {
    if more == [] {
      assert steps + more == steps;
    } else {
      assert (steps + more)[..|steps + more| - 1] == steps + more[..|more| - 1];
      PlayTwo(m, w, steps, more[..|more| - 1]);
    }
  }

  lemma ActIsPlay(m: Mutation, w: World, draft: Fields, verdict: Verdict, now: string) returns (steps: seq<Step>)
    ensures Act(m, w, draft, verdict, now) == Play(m, w, steps)
  {
    var next := Next(m, w, draft, now);
    steps := [Advance(draft, now)];
    assert Play(m, w, []) == w && steps[..0] == [];
    if next.phase.InFlight? {
      assert w.phase.Ready? && next.sent[|w.sent|] == Message(m.cloudKey, next.phase.payload);
      steps := steps + [Deliver(|w.sent|, verdict)];
      assert steps[..1] == [Advance(draft, now)];
    }
  }

  /** An undisturbed attempt is one of the runs `ExactlyOnce` speaks of. */
  lemma {:induction false} FinishIsPlay(m: Mutation, w: World, draft: Fields, verdict: Verdict, now: string)
    returns (steps: seq<Step>)
    ensures Finish(m, w, draft, verdict, now) == Play(m, w, steps)
    decreases Remaining(w.phase)
  {
    if w.phase.Idle? {
      steps := [];
    } else {
      var first := ActIsPlay(m, w, draft, verdict, now);
      var rest := FinishIsPlay(m, Act(m, w, draft, verdict, now), draft, verdict, now);
      PlayTwo(m, w, first, rest);
      steps := first + rest;
    }
  }

  lemma AttemptIsPlay(m: Mutation, w: World, draft: Fields, verdict: Verdict, now: string) returns (steps: seq<Step>)
    ensures WholeAttempt(m, w, draft, verdict, now) == Play(m, w, steps)
  {
    var first := ActIsPlay(m, w, draft, verdict, now);
    var rest := FinishIsPlay(m, Act(m, w, draft, verdict, now), draft, verdict, now);
    PlayTwo(m, w, first, rest);
    steps := first + rest;
  }

  /** The first attempt files the mutation itself: its intent, type and aggregate under its key. */
  lemma AttemptFilesIntent(m: Mutation, w: World, draft: Fields, now: string)
    requires Invariant(m, w) && Unclaimed(m, w)
    ensures var after := Next(m, w, draft, now);
            && after.phase.Drafting?
            && var ref := OpRef(m.context.scope, after.phase.operation);
               && ref in after.db.operations && after.db.operations[ref].manifest.payload == m.intent
               && var command := after.db.operations[ref].command;
                  && command.key == Supplied(m.operationKey) && command.commandType == m.commandType
                  && command.aggregateType == m.aggregateType && command.aggregateId == m.aggregateId
                  && command.principal == m.context.principal
  {
    BeginFilesRequest(w.db, m.context, m.Request(), now);
    BeginFree(w.db, m.context, m.Request(), now);
    EntriesOfBegin(m, FirstFreeId(w.db, m.Request()), NewRef(w.db, m.context, m.Request()).operation, now);
  }
}
