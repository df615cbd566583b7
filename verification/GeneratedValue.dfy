/** A non-deterministic value generated once and replayed from the ledger, under crashes. */
module GeneratedValue {
  import opened Json
  import opened Options
  import opened OperationLedger
  import opened LedgerRuns

  /** The arguments every attempt repeats; the key is derived from the caller's idempotency key and
      the command type. */
  datatype Generation = Generation(
    context: Context, key: string, commandType: string, aggregateType: string, aggregateId: string, input: Fields)
  {
    function Request(): Request {
      LedgerRuns.Request(key, commandType, aggregateType, aggregateId, input, BlockedInitial())
    }

    function Key(): Key {
      Supplied(key)
    }
  }

  datatype Phase = Idle | Generating(operation: Id)

  datatype World = World(db: Ledger, phase: Phase, returned: seq<Fields>)

  datatype Step = Advance(value: Fields, now: string) | Crash | OtherCall(call: Call)

  function Returning(w: World, value: Fields): World {
    w.(phase := Idle, returned := w.returned + [value])
  }

  function ValuePatch(value: Fields): Fields {
    map["generatedValue" := Object(value)]
  }

  /** The attempt's next step: `begin`, or generating `value` and storing it. */
  ghost function Next(g: Generation, w: World, value: Fields, now: string): World {
    match w.phase
    case Idle =>
      var (db, outcome) := BeginCall(w.db, g.context, g.Request(), now);
      if outcome.Raised? then w.(db := db)
      else
        (match ObjectAt(outcome.receipt.entries, "generatedValue")
         case Some(stored) => Returning(w.(db := db), stored)
         case None =>
           (match NamedOperation(outcome.receipt)
            case Some(op) => w.(db := db, phase := Generating(op))
            case None => w.(db := db)))
    case Generating(op) =>
      var (db, outcome) := UpdateCall(w.db, g.context.scope, op, Processing, ValuePatch(value), None, None, now);
      if outcome.Raised? then w.(db := db, phase := Idle)
      else Returning(w.(db := db), ObjectAt(outcome.receipt.entries, "generatedValue").GetOr(value))
  }

  ghost function Take(g: Generation, w: World, step: Step): World {
    match step
    case Advance(value, now) => Next(g, w, value, now)
    case Crash => w.(phase := Idle)
    case OtherCall(call) => if Foreign(w.db, call, g.context.scope, g.Key()) then w.(db := Apply(w.db, call).0) else w
  }

  ghost function Play(g: Generation, w: World, steps: seq<Step>): World {
    if steps == [] then w
    else Take(g, Play(g, w, steps[..|steps| - 1]), steps[|steps| - 1])
  }

  ghost predicate Start(g: Generation, w: World) {
    g.key != "" && WellFormed(w.db) && !Taken(w.db, g.context.scope, g.Key()) && w.phase == Idle && w.returned == []
  }

  ghost predicate Unclaimed(g: Generation, w: World) {
    !Taken(w.db, g.context.scope, g.Key()) && w.phase == Idle && w.returned == []
  }

  /** Nothing is returned before a value is stored, and nothing but that value afterwards. */
  ghost predicate Stored(w: World, op: Id, receipt: Receipt) {
    && receipt.state == Processing
    && match ObjectAt(receipt.entries, "generatedValue")
       case None => w.returned == [] && (w.phase == Idle || w.phase == Generating(op))
       case Some(v) => w.phase == Idle && forall i :: 0 <= i < |w.returned| ==> w.returned[i] == v
  }

  ghost predicate Claimed(g: Generation, w: World, ref: OpRef) {
    && Holds(w.db, ref, g.context.scope, g.Key())
    && var r := w.db.operations[ref];
       && r.command.commandType == g.commandType && r.command.payloadHash == PayloadDigest(g.input)
       && Stored(w, ref.operation, r.manifest.receipt)
  }

  ghost predicate Invariant(g: Generation, w: World) {
    g.key != "" && WellFormed(w.db) && (Unclaimed(g, w) || exists ref :: Claimed(g, w, ref))
  }

  lemma FirstBeginKeeps(g: Generation, w: World, value: Fields, now: string)
    requires Invariant(g, w) && Unclaimed(g, w)
    ensures Invariant(g, Next(g, w, value, now))
  {
    BeginFree(w.db, g.context, g.Request(), now);
    EffectOfCall(w.db, Begin(g.context, g.Request(), now));
    var ref := NewRef(w.db, g.context, g.Request());
    var receipt := NewRows(w.db, g.context, g.Request(), now).manifest.receipt;
    assert ObjectAt(receipt.entries, "generatedValue") == None && NamedOperation(receipt) == Some(ref.operation);
    assert Claimed(g, Next(g, w, value, now), ref);
  }

  lemma EntriesOfReplay(op: Id, command: Id, receipt: Receipt)
    ensures var r := Replayed(op, command, receipt);
            NamedOperation(r) == Some(op) && ObjectAt(r.entries, "generatedValue") == ObjectAt(receipt.entries, "generatedValue")
  {
  }

  lemma BeginAgainKeeps(g: Generation, w: World, ref: OpRef, value: Fields, now: string)
    requires Invariant(g, w) && Claimed(g, w, ref) && w.phase == Idle
    ensures Invariant(g, Next(g, w, value, now))
  {
    BeginHeld(w.db, g.context, g.Request(), now, ref);
    EntriesOfReplay(ref.operation, w.db.operations[ref].command.id, w.db.operations[ref].manifest.receipt);
    assert Claimed(g, Next(g, w, value, now), ref);
  }

  lemma EntriesOfStore(receipt: Receipt, value: Fields, now: string)
    ensures var r := UpdatedReceipt(receipt, Processing, ValuePatch(value), None, None, now);
            r.state == Processing && ObjectAt(r.entries, "generatedValue") == Some(value)
  {
  }

  /** The rows of a claimed operation after the value is stored, its claim unchanged. */
  lemma StoreInClaimed(g: Generation, w: World, ref: OpRef, value: Fields, now: string)
    requires WellFormed(w.db) && Claimed(g, w, ref)
    ensures var (db, outcome) := UpdateCall(w.db, g.context.scope, ref.operation, Processing, ValuePatch(value), None, None, now);
            var r := w.db.operations[ref];
            && WellFormed(db) && Holds(db, ref, g.context.scope, g.Key())
            && db.operations[ref].command.commandType == r.command.commandType
            && db.operations[ref].command.payloadHash == r.command.payloadHash
            && db.operations[ref].manifest.receipt == UpdatedReceipt(r.manifest.receipt, Processing, ValuePatch(value), None, None, now)
            && outcome == Done(db.operations[ref].manifest.receipt)
  {
    EffectOfCall(w.db, Update(g.context.scope, ref.operation, Processing, ValuePatch(value), None, None, now));
  }

  lemma StoreKeeps(g: Generation, w: World, ref: OpRef, value: Fields, now: string)
    requires Invariant(g, w) && Claimed(g, w, ref) && w.phase.Generating?
    ensures Invariant(g, Next(g, w, value, now))
  {
    StoreInClaimed(g, w, ref, value, now);
    EntriesOfStore(w.db.operations[ref].manifest.receipt, value, now);
    assert Claimed(g, Next(g, w, value, now), ref);
  }

  lemma StepKeeps(g: Generation, w: World, step: Step)
    requires Invariant(g, w)
    ensures Invariant(g, Take(g, w, step))
  {
    if step.OtherCall? && Foreign(w.db, step.call, g.context.scope, g.Key()) {
      ForeignCallFrame(w.db, step.call, g.context.scope, g.Key());
    }
    if Unclaimed(g, w) {
      if step.Advance? { FirstBeginKeeps(g, w, step.value, step.now); }
    } else {
      var ref :| Claimed(g, w, ref);
      match step {
        case Advance(value, now) =>
          if w.phase.Idle? { BeginAgainKeeps(g, w, ref, value, now); } else { StoreKeeps(g, w, ref, value, now); }
        case Crash => assert Claimed(g, Take(g, w, step), ref);
        case OtherCall(_) => assert Claimed(g, Take(g, w, step), ref);
      }
    }
  }

  /** Generated once: in every run of attempts, each possibly crashing anywhere and with the
      generator answering something different each time, all normal returns are equal. */
  lemma {:induction false} GeneratedOnce(g: Generation, start: World, steps: seq<Step>)
    requires Start(g, start)
    ensures Invariant(g, Play(g, start, steps))
    ensures var w := Play(g, start, steps);
            forall i, j :: 0 <= i < |w.returned| && 0 <= j < |w.returned| ==> w.returned[i] == w.returned[j]
  {
    if steps != [] {
      GeneratedOnce(g, start, steps[..|steps| - 1]);
      StepKeeps(g, Play(g, start, steps[..|steps| - 1]), steps[|steps| - 1]);
      var w := Play(g, start, steps);
      if !Unclaimed(g, w) { var ref :| Claimed(g, w, ref); }
    }
  }

  /** An attempt that nothing interrupts. */
  ghost function WholeAttempt(g: Generation, w: World, value: Fields, now: string): World {
    var begun := Next(g, w, value, now);
    if begun.phase.Idle? then begun else Next(g, begun, value, now)
  }

  ghost predicate Undrafted(g: Generation, w: World) {
    forall ref :: Holds(w.db, ref, g.context.scope, g.Key()) ==>
      ObjectAt(w.db.operations[ref].manifest.receipt.entries, "generatedValue") == None
  }

  lemma FirstAttemptReturns(g: Generation, w: World, value: Fields, now: string)
    requires Invariant(g, w) && Unclaimed(g, w)
    ensures var after := WholeAttempt(g, w, value, now); after.phase.Idle? && after.returned == w.returned + [value]
  {
    BeginFree(w.db, g.context, g.Request(), now);
    EffectOfCall(w.db, Begin(g.context, g.Request(), now));
    var ref := NewRef(w.db, g.context, g.Request());
    var receipt := NewRows(w.db, g.context, g.Request(), now).manifest.receipt;
    assert ObjectAt(receipt.entries, "generatedValue") == None && NamedOperation(receipt) == Some(ref.operation);
    var begun := Next(g, w, value, now);
    assert Claimed(g, begun, ref);
    StoreInClaimed(g, begun, ref, value, now);
    EntriesOfStore(receipt, value, now);
  }

  lemma LaterAttemptReturns(g: Generation, w: World, ref: OpRef, value: Fields, now: string)
    requires Invariant(g, w) && Claimed(g, w, ref) && w.phase.Idle?
    ensures var after, stored := WholeAttempt(g, w, value, now), ObjectAt(w.db.operations[ref].manifest.receipt.entries, "generatedValue");
            after.phase.Idle? && after.returned == w.returned + [if stored.Some? then stored.value else value]
  {
    BeginHeld(w.db, g.context, g.Request(), now, ref);
    EntriesOfReplay(ref.operation, w.db.operations[ref].command.id, w.db.operations[ref].manifest.receipt);
    if ObjectAt(w.db.operations[ref].manifest.receipt.entries, "generatedValue").None? {
      var begun := Next(g, w, value, now);
      assert Claimed(g, begun, ref);
      StoreInClaimed(g, begun, ref, value, now);
      EntriesOfStore(w.db.operations[ref].manifest.receipt, value, now);
    }
  }

  /** And it is generated: after any run, the next attempt that nothing interrupts returns, with what
      it has generated itself if no value is stored yet, and with the stored one otherwise. */
  lemma AttemptReturns(g: Generation, start: World, steps: seq<Step>, value: Fields, now: string)
    requires Start(g, start) && Play(g, start, steps).phase.Idle?
    ensures var w := Play(g, start, steps);
            var after := WholeAttempt(g, w, value, now);
            && after.phase.Idle? && |after.returned| == |w.returned| + 1 && after.returned[..|w.returned|] == w.returned
            && (Undrafted(g, w) ==> after.returned[|w.returned|] == value)
            && (w.returned != [] ==> after.returned[|w.returned|] == w.returned[0])
  {
    GeneratedOnce(g, start, steps);
    var w := Play(g, start, steps);
    if Unclaimed(g, w) {
      FirstAttemptReturns(g, w, value, now);
    } else {
      var ref :| Claimed(g, w, ref);
      LaterAttemptReturns(g, w, ref, value, now);
    }
  }

  /** The first attempt files the generation itself: its input, type and aggregate under its key. */
  lemma AttemptFilesInput(g: Generation, w: World, value: Fields, now: string)
    requires Invariant(g, w) && Unclaimed(g, w)
    ensures var after := Next(g, w, value, now);
            && after.phase.Generating?
            && var ref := OpRef(g.context.scope, after.phase.operation);
               && ref in after.db.operations && after.db.operations[ref].manifest.payload == g.input
               && var command := after.db.operations[ref].command;
                  && command.key == Supplied(g.key) && command.commandType == g.commandType
                  && command.aggregateType == g.aggregateType && command.aggregateId == g.aggregateId
  {
    BeginFilesRequest(w.db, g.context, g.Request(), now);
    BeginFree(w.db, g.context, g.Request(), now);
    var receipt := NewRows(w.db, g.context, g.Request(), now).manifest.receipt;
    assert ObjectAt(receipt.entries, "generatedValue") == None;
    assert NamedOperation(receipt) == Some(NewRef(w.db, g.context, g.Request()).operation);
  }
}
