/** The whole ledger: the rows of every operation, the calls on them, and what every run of calls
    keeps. `LedgerRepository` ties this to the seven tables. */
module LedgerRuns {
  import opened Json
  import opened Options
  import opened OperationLedger

  datatype OpRef = OpRef(scope: string, operation: Id)

  /** The rows of every operation, and the supply of new ids. */
  datatype Ledger = Ledger(nextId: Id, operations: map<OpRef, Rows>) {
    function Rewritten(ref: OpRef, r: Rows): Ledger {
      Ledger(nextId, operations[ref := r])
    }
  }

  const EMPTY := Ledger(0, map[])

  datatype Error = PayloadConflict | KeyConflict | OperationMissing

  datatype Outcome = Done(receipt: Receipt) | Raised(error: Error)

  datatype Request = Request(
    key: string, commandType: string, aggregateType: string, aggregateId: string, payload: Fields, initial: Initial)

  /** The operation `ref` is the one that owns `key` in `scope`. */
  ghost predicate Holds(db: Ledger, ref: OpRef, scope: string, key: Key) {
    ref in db.operations && ref.scope == scope && db.operations[ref].command.key == key
  }

  ghost predicate Taken(db: Ledger, scope: string, key: Key) {
    exists ref :: Holds(db, ref, scope, key)
  }

  predicate IdsBelow(ref: OpRef, r: Rows, limit: Id) {
    && ref.operation < limit && r.command.id < limit && r.command.manifestId < limit
    && (r.command.key.Generated? ==> r.command.key.id < limit)
  }

  /** No two operations share a command id, a receipt, or a key in one scope. */
  predicate Separate(refA: OpRef, a: Rows, refB: OpRef, b: Rows) {
    && a.command.id != b.command.id
    && a.command.manifestId != b.command.manifestId
    && (refA.scope == refB.scope ==> a.command.key != b.command.key)
  }

  ghost predicate WellFormed(db: Ledger) {
    && (forall ref :: ref in db.operations ==> IdsBelow(ref, db.operations[ref], db.nextId))
    && (forall a, b :: a in db.operations && b in db.operations && a != b ==>
          Separate(a, db.operations[a], b, db.operations[b]))
  }

  // ---------- the calls ----------

  /** The key a `begin` uses: an empty one is replaced by a generated one. */
  function KeyOf(db: Ledger, q: Request): Key {
    if q.key == "" then Generated(db.nextId) else Supplied(q.key)
  }

  function FirstFreeId(db: Ledger, q: Request): Id {
    if q.key == "" then db.nextId + 1 else db.nextId
  }

  function NewRef(db: Ledger, context: Context, q: Request): OpRef {
    OpRef(context.scope, FirstFreeId(db, q) + 1)
  }

  function NewRows(db: Ledger, context: Context, q: Request, now: string): Rows {
    var command := FirstFreeId(db, q);
    BegunRows(command + 1, command, command + 2, context, KeyOf(db, q), q.commandType, q.aggregateType, q.aggregateId,
              q.payload, q.initial, now)
  }

  ghost function BeginCall(db: Ledger, context: Context, q: Request, now: string): (Ledger, Outcome) {
    if ref :| Holds(db, ref, context.scope, KeyOf(db, q)) then
      var r := db.operations[ref];
      if r.command.commandType != q.commandType then (db, Raised(KeyConflict))
      else if r.command.payloadHash != PayloadDigest(q.payload) then (db, Raised(PayloadConflict))
      else (db, Done(Replayed(ref.operation, r.command.id, r.manifest.receipt)))
    else
      var r := NewRows(db, context, q, now);
      (Ledger(FirstFreeId(db, q) + 3, db.operations[NewRef(db, context, q) := r]), Done(r.manifest.receipt))
  }

  function UpdateCall(
    db: Ledger, scope: string, operation: Id, state: State, patch: Fields,
    code: Option<string>, message: Option<string>, now: string): (Ledger, Outcome)
  {
    var ref := OpRef(scope, operation);
    if ref !in db.operations then (db, Raised(OperationMissing))
    else
      var r := db.operations[ref];
      if r.manifest.receipt.state.Terminal() then (db, Done(r.manifest.receipt))
      else
        var r' := UpdatedRows(r, state, patch, code, message, now);
        (db.Rewritten(ref, r'), Done(r'.manifest.receipt))
  }

  function RetryCall(db: Ledger, scope: string, operation: Id, now: string): (Ledger, Outcome) {
    var ref := OpRef(scope, operation);
    if ref !in db.operations then (db, Raised(OperationMissing))
    else
      var r := db.operations[ref];
      if r.manifest.receipt.state != FailedRetryable then (db, Done(r.manifest.receipt))
      else
        var r' := RetriedRows(r, now);
        (db.Rewritten(ref, r'), Done(r'.manifest.receipt))
  }

  function BlockedInitial(): Initial {
    Initial(Some(Processing), Some(true), Some(false), map[])
  }

  /** The operation an answer of `begin` names. */
  function NamedOperation(receipt: Receipt): Option<Id> {
    if "operationId" in receipt.entries && receipt.entries["operationId"].Number? && receipt.entries["operationId"].value >= 0
    then Some(receipt.entries["operationId"].value) else None
  }

  predicate IsReplay(receipt: Receipt) {
    "idempotentReplay" in receipt.entries && receipt.entries["idempotentReplay"] == Bool(true)
  }

  /** `record_blocked`: a begin in `processing`, then an update to `blocked` unless the begin
      answered an operation that is already terminal. */
  ghost function RecordBlockedCall(
    db: Ledger, context: Context, q: Request, code: string, message: string, blocker: string, now: string,
    later: string): (Ledger, Outcome)
  {
    var (begun, started) := BeginCall(db, context, q.(initial := BlockedInitial()), now);
    if started.Raised? || (IsReplay(started.receipt) && started.receipt.state.Terminal()) then (begun, started)
    else
      match NamedOperation(started.receipt)
      case None => (begun, Raised(OperationMissing))
      case Some(op) =>
        UpdateCall(begun, context.scope, op, Blocked, map["message" := Text(message), "blockerType" := Text(blocker)],
                   Some(code), Some(message), later)
  }

  datatype Call =
    | Begin(context: Context, request: Request, now: string)
    | Update(scope: string, operation: Id, state: State, patch: Fields,
             code: Option<string>, message: Option<string>, now: string)
    | Retry(scope: string, operation: Id, now: string)

  ghost function Apply(db: Ledger, call: Call): (Ledger, Outcome) {
    match call
    case Begin(context, q, now) => BeginCall(db, context, q, now)
    case Update(scope, op, state, patch, code, message, now) =>
      UpdateCall(db, scope, op, state, patch, code, message, now)
    case Retry(scope, op, now) => RetryCall(db, scope, op, now)
  }

  /** The ledger after a whole run of calls, each its own transaction. `record_blocked` is a
      `Begin` followed by an `Update`, so a crash between the two is one of these runs. */
  ghost function Run(db: Ledger, calls: seq<Call>): Ledger {
    if calls == [] then db
    else Apply(Run(db, calls[..|calls| - 1]), calls[|calls| - 1]).0
  }

  // ---------- the effect of one call ----------

  ghost predicate Starts(db: Ledger, call: Call) {
    call.Begin? && !Taken(db, call.context.scope, KeyOf(db, call.request))
  }

  /** The call takes effect on the existing operation `ref`. */
  predicate Changes(db: Ledger, call: Call, ref: OpRef) {
    && ref in db.operations
    && var state := db.operations[ref].manifest.receipt.state;
       match call
       case Begin(_, _, _) => false
       case Update(scope, op, _, _, _, _, _) => ref == OpRef(scope, op) && !state.Terminal()
       case Retry(scope, op, _) => ref == OpRef(scope, op) && state == FailedRetryable
  }

  /** What the rows of `ref` become when the call takes effect on them. */
  function Changed(db: Ledger, call: Call, ref: OpRef): Rows
    requires Changes(db, call, ref)
  {
    match call
    case Update(_, _, state, patch, code, message, now) =>
      UpdatedRows(db.operations[ref], state, patch, code, message, now)
    case Retry(_, _, now) => RetriedRows(db.operations[ref], now)
  }

  lemma HolderIsUnique(db: Ledger, a: OpRef, b: OpRef, scope: string, key: Key)
    requires WellFormed(db) && Holds(db, a, scope, key) && Holds(db, b, scope, key)
    ensures a == b
  {
  }

  /** `begin` under a key that operation `ref` holds. */
  lemma BeginHeld(db: Ledger, context: Context, q: Request, now: string, ref: OpRef)
    requires WellFormed(db) && Holds(db, ref, context.scope, KeyOf(db, q))
    ensures var c := db.operations[ref].command;
            BeginCall(db, context, q, now)
            == (db, if c.commandType != q.commandType then Raised(KeyConflict)
                    else if c.payloadHash != PayloadDigest(q.payload) then Raised(PayloadConflict)
                    else Done(Replayed(ref.operation, c.id, db.operations[ref].manifest.receipt)))
  {
  }

  /** `begin` under a key no operation holds. */
  lemma BeginFree(db: Ledger, context: Context, q: Request, now: string)
    requires !Taken(db, context.scope, KeyOf(db, q))
    ensures var r := NewRows(db, context, q, now);
            BeginCall(db, context, q, now)
            == (Ledger(FirstFreeId(db, q) + 3, db.operations[NewRef(db, context, q) := r]), Done(r.manifest.receipt))
  {
  }

  /** Rewriting the rows of an operation without touching its ids and key. */
  lemma RewriteKeepsWellFormed(db: Ledger, ref: OpRef, r: Rows)
    requires WellFormed(db) && ref in db.operations
    requires r.command.id == db.operations[ref].command.id
    requires r.command.manifestId == db.operations[ref].command.manifestId
    requires r.command.key == db.operations[ref].command.key
    ensures WellFormed(db.Rewritten(ref, r))
  {
  }

  lemma InsertKeepsWellFormed(db: Ledger, ref: OpRef, r: Rows, limit: Id)
    requires WellFormed(db) && db.nextId <= limit && IdsBelow(ref, r, limit)
    requires db.nextId <= ref.operation && db.nextId <= r.command.id && db.nextId <= r.command.manifestId
    requires !Taken(db, ref.scope, r.command.key)
    ensures ref !in db.operations
    ensures WellFormed(Ledger(limit, db.operations[ref := r]))
  {
    assert forall a :: a in db.operations ==> IdsBelow(a, db.operations[a], db.nextId);
    forall a | a in db.operations
      ensures IdsBelow(a, db.operations[a], limit)
      ensures Separate(a, db.operations[a], ref, r) && Separate(ref, r, a, db.operations[a])
    {
      assert IdsBelow(a, db.operations[a], db.nextId);
      assert !Holds(db, a, ref.scope, r.command.key);
    }
  }

  /** The whole effect of a call: an insertion, one rewrite, or nothing at all. */
  ghost function Effect(db: Ledger, call: Call): Ledger {
    if Starts(db, call) then
      Ledger(FirstFreeId(db, call.request) + 3,
             db.operations[NewRef(db, call.context, call.request) := NewRows(db, call.context, call.request, call.now)])
    else if call.Begin? || !Changes(db, call, OpRef(call.scope, call.operation)) then db
    else
      var ref := OpRef(call.scope, call.operation);
      db.Rewritten(ref, Changed(db, call, ref))
  }

  lemma ApplyIsEffect(db: Ledger, call: Call)
    ensures Apply(db, call).0 == Effect(db, call)
  {
  }

  /** A call keeps the ledger well formed, changes the rows of at most the one operation it names,
      inserts at most one, and leaves every other operation exactly as it was. */
  lemma EffectOfCall(db: Ledger, call: Call)
    requires WellFormed(db)
    ensures Apply(db, call).0 == Effect(db, call)
    ensures WellFormed(Effect(db, call))
    ensures Starts(db, call) ==> NewRef(db, call.context, call.request) !in db.operations
    ensures forall ref :: ref in db.operations ==>
              ref in Effect(db, call).operations
              && Effect(db, call).operations[ref]
                 == if Changes(db, call, ref) then Changed(db, call, ref) else db.operations[ref]
  {
    ApplyIsEffect(db, call);
    if Starts(db, call) {
      InsertKeepsWellFormed(db, NewRef(db, call.context, call.request),
                            NewRows(db, call.context, call.request, call.now), FirstFreeId(db, call.request) + 3);
    } else if !call.Begin? {
      var ref := OpRef(call.scope, call.operation);
      if Changes(db, call, ref) {
        RewriteKeepsWellFormed(db, ref, Changed(db, call, ref));
      }
    }
  }

  // ---------- what every run keeps ----------

  /** The rows agree with the receipt unless only a `begin` in another state than `processing` has
      written them; their hashes agree always. */
  ghost predicate Consistent(r: Rows) {
    && Sealed(r)
    && (Agreed(r) <==> (Untouched(r) ==> r.manifest.receipt.state == Processing))
    && (Untouched(r) ==> r.command.status == Sending)
  }

  lemma CallKeepsConsistent(db: Ledger, call: Call)
    requires WellFormed(db)
    requires forall ref :: ref in db.operations ==> Consistent(db.operations[ref])
    ensures forall ref :: ref in Apply(db, call).0.operations ==> Consistent(Apply(db, call).0.operations[ref])
  {
    EffectOfCall(db, call);
    forall ref | ref in Apply(db, call).0.operations
      ensures Consistent(Apply(db, call).0.operations[ref])
    {
      if ref !in db.operations {
        NewRowsKeep(db, call.context, call.request, call.now);
      } else if Changes(db, call, ref) {
        ChangedKeeps(db, call, ref);
      }
    }
  }

  lemma NewRowsKeep(db: Ledger, context: Context, q: Request, now: string)
    ensures Consistent(NewRows(db, context, q, now)) && Accounted(NewRows(db, context, q, now))
    ensures NewRows(db, context, q, now).manifest.receipt.state == q.initial.state.GetOr(Processing)
  {
  }

  lemma ChangedKeeps(db: Ledger, call: Call, ref: OpRef)
    requires Changes(db, call, ref) && Consistent(db.operations[ref])
    ensures Consistent(Changed(db, call, ref))
  {
    var r := db.operations[ref];
    match call {
      case Update(_, _, state, patch, code, message, now) => UpdatedAgrees(r, state, patch, code, message, now);
      case Retry(_, _, now) => RetriedAgrees(r, now);
    }
  }

  lemma {:induction false} RunKeepsWellFormed(calls: seq<Call>)
    ensures WellFormed(Run(EMPTY, calls))
  {
    if calls != [] {
      RunKeepsWellFormed(calls[..|calls| - 1]);
      EffectOfCall(Run(EMPTY, calls[..|calls| - 1]), calls[|calls| - 1]);
    }
  }

  /** Ledger agreement, over every run of calls from an empty ledger with any arguments at all. */
  lemma {:induction false} LedgerAgreement(calls: seq<Call>)
    ensures forall ref :: ref in Run(EMPTY, calls).operations ==> Consistent(Run(EMPTY, calls).operations[ref])
  {
    if calls != [] {
      LedgerAgreement(calls[..|calls| - 1]);
      RunKeepsWellFormed(calls[..|calls| - 1]);
      CallKeepsConsistent(Run(EMPTY, calls[..|calls| - 1]), calls[|calls| - 1]);
    }
  }

  // ---------- failure accounting ----------

  /** The calls under which the failure count stays right: updates name a recognised state, and no
      operation is begun already in `failed_retryable`. */
  predicate Orderly(call: Call) {
    match call
    case Begin(_, q, _) => q.initial.state != Some(FailedRetryable)
    case Update(_, _, state, _, _, _, _) => state.Recognised()
    case Retry(_, _, _) => true
  }

  /** Accounted, and `failed` in the command means a terminal receipt and the other way round for
      the one state that can be retried. */
  ghost predicate Counted(r: Rows) {
    && Consistent(r) && Accounted(r)
    && (r.command.status == CommandFailed ==> r.manifest.receipt.state.Terminal())
    && (r.manifest.receipt.state == FailedRetryable ==> r.command.status == CommandFailed && Agreed(r))
  }

  lemma OrderlyChangeCounts(db: Ledger, call: Call, ref: OpRef)
    requires Orderly(call) && Changes(db, call, ref) && Counted(db.operations[ref])
    ensures Counted(Changed(db, call, ref))
  {
    var r := db.operations[ref];
    ChangedKeeps(db, call, ref);
    match call {
      case Update(_, _, state, patch, code, message, now) =>
        UpdatedAgrees(r, state, patch, code, message, now);
        UpdatedAccounts(r, state, patch, code, message, now);
      case Retry(_, _, now) =>
        RetriedAgrees(r, now);
        RetriedAccounts(r, now);
    }
  }

  lemma OrderlyCallCounts(db: Ledger, call: Call)
    requires WellFormed(db) && Orderly(call)
    requires forall ref :: ref in db.operations ==> Counted(db.operations[ref])
    ensures forall ref :: ref in Apply(db, call).0.operations ==> Counted(Apply(db, call).0.operations[ref])
  {
    EffectOfCall(db, call);
    forall ref | ref in Apply(db, call).0.operations
      ensures Counted(Apply(db, call).0.operations[ref])
    {
      if ref !in db.operations {
        NewRowsKeep(db, call.context, call.request, call.now);
      } else if Changes(db, call, ref) {
        OrderlyChangeCounts(db, call, ref);
      }
    }
  }

  /** Failure accounting: after every orderly run, every operation's attempts are numbered 1..n, all
      but the last ended `failed_retryable`, one dead letter is open exactly when the command is
      `failed`, and there are n - 1 dead letters besides that one. */
  lemma {:induction false} FailureAccounting(calls: seq<Call>)
    requires forall i :: 0 <= i < |calls| ==> Orderly(calls[i])
    ensures forall ref :: ref in Run(EMPTY, calls).operations ==> Counted(Run(EMPTY, calls).operations[ref])
  {
    if calls != [] {
      FailureAccounting(calls[..|calls| - 1]);
      RunKeepsWellFormed(calls[..|calls| - 1]);
      OrderlyCallCounts(Run(EMPTY, calls[..|calls| - 1]), calls[|calls| - 1]);
    }
  }

  /** The exact condition on a retry that takes effect: it keeps the count if and only if the
      command it reads is `failed`. */
  lemma RetryAccountsIffFailed(r: Rows, now: string)
    requires Consistent(r) && Accounted(r) && r.manifest.receipt.state == FailedRetryable
    ensures Accounted(RetriedRows(r, now)) <==> r.command.status == CommandFailed
  {
    RetriedAccounts(r, now);
  }

  /** The ledger after one `begin` with a key of its own. */
  lemma FirstBegin(context: Context, q: Request, now: string)
    requires q.key != ""
    ensures Run(EMPTY, [Begin(context, q, now)])
            == Ledger(3, map[OpRef(context.scope, 1) := NewRows(EMPTY, context, q, now)])
  {
  }

  /** An operation begun in `failed_retryable` and retried: its first attempt is on record as
      `processing`, and no dead letter was ever written for it. */
  lemma RetryFromBirthMiscounts(context: Context, now: string)
    ensures var q := Request("k", "t", "a", "b", map[], Initial(Some(FailedRetryable), None, None, map[]));
            var db := Run(EMPTY, [Begin(context, q, now), Retry(context.scope, 1, now)]);
            OpRef(context.scope, 1) in db.operations && !Accounted(db.operations[OpRef(context.scope, 1)])
  {
    var q := Request("k", "t", "a", "b", map[], Initial(Some(FailedRetryable), None, None, map[]));
    var calls := [Begin(context, q, now), Retry(context.scope, 1, now)];
    assert calls[..1] == [Begin(context, q, now)];
    FirstBegin(context, q, now);
    var r := NewRows(EMPTY, context, q, now);
    NewRowsKeep(EMPTY, context, q, now);
    RetryAccountsIffFailed(r, now);
    assert Run(EMPTY, calls).operations[OpRef(context.scope, 1)] == RetriedRows(r, now);
  }

  /** An update to a state outside the recognised ones is filed as a failure that is not terminal. */
  lemma IdleThenCompleted(r: Rows, now: string)
    requires Sealed(r) && Accounted(r) && r.command.status == Sending
    ensures var idle := UpdatedRows(r, Other("idle"), map[], None, None, now);
            && idle.manifest.receipt.state == Other("idle")
            && !Accounted(UpdatedRows(idle, Completed, map[], None, None, now))
  {
    UpdatedAgrees(r, Other("idle"), map[], None, None, now);
    UpdatedAccounts(r, Other("idle"), map[], None, None, now);
    UpdatedAccounts(UpdatedRows(r, Other("idle"), map[], None, None, now), Completed, map[], None, None, now);
  }

  lemma LoneUpdate(ref: OpRef, r: Rows, limit: Id, state: State, now: string)
    requires !r.manifest.receipt.state.Terminal()
    ensures Apply(Ledger(limit, map[ref := r]), Update(ref.scope, ref.operation, state, map[], None, None, now)).0
            == Ledger(limit, map[ref := UpdatedRows(r, state, map[], None, None, now)])
  {
  }

  lemma Chain(a: Ledger, x: Call, b: Ledger, y: Call, c: Ledger)
    requires Apply(a, x).0 == b && Apply(b, y).0 == c
    ensures Apply(Apply(a, x).0, y).0 == c
  {
  }

  lemma LoneIdleThenCompleted(ref: OpRef, r: Rows, limit: Id, now: string) returns (done: Rows)
    requires Sealed(r) && Accounted(r) && r.command.status == Sending
    requires !r.manifest.receipt.state.Terminal()
    ensures !Accounted(done)
    ensures Apply(Apply(Ledger(limit, map[ref := r]),
                        Update(ref.scope, ref.operation, Other("idle"), map[], None, None, now)).0,
                  Update(ref.scope, ref.operation, Completed, map[], None, None, now)).0
            == Ledger(limit, map[ref := done])
  {
    IdleThenCompleted(r, now);
    var idle := UpdatedRows(r, Other("idle"), map[], None, None, now);
    done := UpdatedRows(idle, Completed, map[], None, None, now);
    LoneUpdate(ref, r, limit, Other("idle"), now);
    LoneUpdate(ref, idle, limit, Completed, now);
    Chain(Ledger(limit, map[ref := r]), Update(ref.scope, ref.operation, Other("idle"), map[], None, None, now),
          Ledger(limit, map[ref := idle]), Update(ref.scope, ref.operation, Completed, map[], None, None, now),
          Ledger(limit, map[ref := done]));
  }

  lemma RunThenCall(db: Ledger, calls: seq<Call>, call: Call)
    ensures Run(db, calls + [call]) == Apply(Run(db, calls), call).0
  {
  }

  lemma RunOfThree(a: Call, b: Call, c: Call)
    ensures Run(EMPTY, [a, b, c]) == Apply(Apply(Run(EMPTY, [a]), b).0, c).0
  {
    RunThenCall(EMPTY, [a], b);
    RunThenCall(EMPTY, [a, b], c);
    assert [a] + [b] == [a, b] && [a, b] + [c] == [a, b, c];
  }

  /** Completing such an operation afterwards leaves its dead letter open for good. */
  lemma UnrecognisedStateMiscounts(context: Context, now: string)
    ensures var q := Request("k", "t", "a", "b", map[], Initial(None, None, None, map[]));
            var db := Run(EMPTY, [Begin(context, q, now),
                                  Update(context.scope, 1, Other("idle"), map[], None, None, now),
                                  Update(context.scope, 1, Completed, map[], None, None, now)]);
            OpRef(context.scope, 1) in db.operations && !Accounted(db.operations[OpRef(context.scope, 1)])
  {
    var q := Request("k", "t", "a", "b", map[], Initial(None, None, None, map[]));
    var ref := OpRef(context.scope, 1);
    RunOfThree(Begin(context, q, now), Update(context.scope, 1, Other("idle"), map[], None, None, now),
               Update(context.scope, 1, Completed, map[], None, None, now));
    FirstBegin(context, q, now);
    NewRowsKeep(EMPTY, context, q, now);
    var _ := LoneIdleThenCompleted(ref, NewRows(EMPTY, context, q, now), 3, now);
  }

  // ---------- terminal absorption ----------

  /** In a terminal operation the only call that changes anything is `retry` from
      `failed_retryable`. */
  lemma TerminalAbsorbs(db: Ledger, call: Call, ref: OpRef)
    requires WellFormed(db) && ref in db.operations
    requires db.operations[ref].manifest.receipt.state.Terminal()
    ensures ref in Apply(db, call).0.operations
    ensures Apply(db, call).0.operations[ref] != db.operations[ref] ==>
              && call.Retry? && OpRef(call.scope, call.operation) == ref
              && db.operations[ref].manifest.receipt.state == FailedRetryable
  {
    EffectOfCall(db, call);
  }

  /** The five other terminal states are final: no run of calls changes such an operation. */
  lemma {:induction false} TerminalForGood(db: Ledger, calls: seq<Call>, ref: OpRef)
    requires WellFormed(db) && ref in db.operations
    requires db.operations[ref].manifest.receipt.state.Terminal() && !db.operations[ref].manifest.receipt.state.FailedRetryable?
    ensures WellFormed(Run(db, calls))
    ensures ref in Run(db, calls).operations && Run(db, calls).operations[ref] == db.operations[ref]
  {
    if calls != [] {
      var before := calls[..|calls| - 1];
      TerminalForGood(db, before, ref);
      EffectOfCall(Run(db, before), calls[|calls| - 1]);
      TerminalAbsorbs(Run(db, before), calls[|calls| - 1], ref);
    }
  }

  /** What two callers of `begin` run into: an operation begun as `completed` is absorbed at once,
      so its command stays `sending`, its attempt `processing` and its outbox event `pending`
      after every later run of calls. */
  lemma BornCompletedNeverSettles(db: Ledger, context: Context, q: Request, now: string, calls: seq<Call>)
    requires WellFormed(db) && Starts(db, Begin(context, q, now))
    requires q.initial.state == Some(Completed)
    ensures var db' := Run(Apply(db, Begin(context, q, now)).0, calls);
            var ref := NewRef(db, context, q);
            && ref in db'.operations
            && db'.operations[ref].command.status == Sending
            && db'.operations[ref].outbox.status == Waiting
            && db'.operations[ref].idempotency.status == Pending
            && Sealed(db'.operations[ref]) && Latest(db'.operations[ref]).transport == Processing
  {
    EffectOfCall(db, Begin(context, q, now));
    NewRowsKeep(db, context, q, now);
    TerminalForGood(Apply(db, Begin(context, q, now)).0, calls, NewRef(db, context, q));
  }

  // ---------- first write wins ----------

  /** What a key stands for: the command type and payload it was first used with, and the one
      operation that made. */
  datatype Claim = Claim(commandType: string, payload: Fields, operation: Id)

  ghost function ClaimOf(db: Ledger, scope: string, key: Key): Option<Claim> {
    if ref :| Holds(db, ref, scope, key) then
      Some(Claim(db.operations[ref].command.commandType, db.operations[ref].manifest.payload, ref.operation))
    else None
  }

  lemma ClaimOfHolder(db: Ledger, ref: OpRef, scope: string, key: Key)
    requires WellFormed(db) && Holds(db, ref, scope, key)
    ensures var r := db.operations[ref];
            ClaimOf(db, scope, key) == Some(Claim(r.command.commandType, r.manifest.payload, ref.operation))
  {
  }

  lemma BeginClaims(db: Ledger, context: Context, q: Request, now: string)
    requires WellFormed(db) && !Taken(db, context.scope, KeyOf(db, q))
    ensures var (db', outcome) := BeginCall(db, context, q, now);
            && outcome == Done(NewRows(db, context, q, now).manifest.receipt)
            && ClaimOf(db', context.scope, KeyOf(db, q))
               == Some(Claim(q.commandType, q.payload, NewRef(db, context, q).operation))
  {
    BeginFree(db, context, q, now);
    EffectOfCall(db, Begin(context, q, now));
    ClaimOfHolder(BeginCall(db, context, q, now).0, NewRef(db, context, q), context.scope, KeyOf(db, q));
  }

  lemma BeginOnFreeKey(db: Ledger, context: Context, q: Request, now: string)
    requires WellFormed(db) && ClaimOf(db, context.scope, KeyOf(db, q)).None?
    ensures var (db', outcome) := BeginCall(db, context, q, now);
            && outcome.Done? && NamedOperation(outcome.receipt) == Some(NewRef(db, context, q).operation)
            && ClaimOf(db', context.scope, KeyOf(db, q))
               == Some(Claim(q.commandType, q.payload, NewRef(db, context, q).operation))
  {
    BeginClaims(db, context, q, now);
  }

  lemma BeginOnUsedKey(db: Ledger, context: Context, q: Request, now: string, ref: OpRef)
    requires WellFormed(db) && Holds(db, ref, context.scope, KeyOf(db, q)) && Sealed(db.operations[ref])
    ensures var (db', outcome) := BeginCall(db, context, q, now);
            var c := ClaimOf(db, context.scope, KeyOf(db, q));
            && c.Some? && db' == db
            && outcome == if c.value.commandType != q.commandType then Raised(KeyConflict)
                          else if c.value.payload != q.payload then Raised(PayloadConflict)
                          else Done(Replayed(c.value.operation, db.operations[ref].command.id, db.operations[ref].manifest.receipt))
  {
    ClaimOfHolder(db, ref, context.scope, KeyOf(db, q));
    BeginHeld(db, context, q, now, ref);
  }

  /** `begin` refines a first-write-wins map: an unused key is claimed for a new operation; a used
      one answers its operation to the same command type and payload, rejects every other, and
      changes nothing. */
  lemma BeginIsFirstWriteWins(db: Ledger, context: Context, q: Request, now: string)
    requires WellFormed(db) && forall ref :: ref in db.operations ==> Sealed(db.operations[ref])
    ensures var (db', outcome) := BeginCall(db, context, q, now);
            match ClaimOf(db, context.scope, KeyOf(db, q))
            case None =>
              && outcome.Done? && NamedOperation(outcome.receipt) == Some(NewRef(db, context, q).operation)
              && ClaimOf(db', context.scope, KeyOf(db, q))
                 == Some(Claim(q.commandType, q.payload, NewRef(db, context, q).operation))
            case Some(c) =>
              && db' == db
              && (c.commandType != q.commandType ==> outcome == Raised(KeyConflict))
              && (c.commandType == q.commandType && c.payload != q.payload ==> outcome == Raised(PayloadConflict))
              && (c.commandType == q.commandType && c.payload == q.payload ==>
                    outcome.Done? && NamedOperation(outcome.receipt) == Some(c.operation) && IsReplay(outcome.receipt))
  {
    var key := KeyOf(db, q);
    if Taken(db, context.scope, key) {
      var ref :| Holds(db, ref, context.scope, key);
      var r := db.operations[ref];
      BeginOnUsedKey(db, context, q, now, ref);
      ReplayNames(ClaimOf(db, context.scope, key).value.operation, r.command.id, r.manifest.receipt);
    } else {
      BeginOnFreeKey(db, context, q, now);
    }
  }

  /** No call ever changes what a used key stands for. */
  lemma ClaimIsKept(db: Ledger, call: Call, scope: string, key: Key)
    requires WellFormed(db) && ClaimOf(db, scope, key).Some?
    ensures ClaimOf(Apply(db, call).0, scope, key) == ClaimOf(db, scope, key)
  {
    EffectOfCall(db, call);
    var db' := Apply(db, call).0;
    var ref :| Holds(db, ref, scope, key);
    assert Holds(db', ref, scope, key);
    ClaimOfHolder(db, ref, scope, key);
    ClaimOfHolder(db', ref, scope, key);
  }

  /** First write wins over whole runs: once claimed, a key stands for the same command type,
      payload and operation after every later run. */
  lemma {:induction false} FirstWriteWins(db: Ledger, calls: seq<Call>, scope: string, key: Key)
    requires WellFormed(db) && ClaimOf(db, scope, key).Some?
    ensures WellFormed(Run(db, calls)) && ClaimOf(Run(db, calls), scope, key) == ClaimOf(db, scope, key)
  {
    if calls != [] {
      var before := calls[..|calls| - 1];
      FirstWriteWins(db, before, scope, key);
      EffectOfCall(Run(db, before), calls[|calls| - 1]);
      ClaimIsKept(Run(db, before), calls[|calls| - 1], scope, key);
    }
  }

  // ---------- record_blocked ----------

  /** `record_blocked` is a run of at most two orderly calls, so all that holds over runs holds for it. */
  lemma RecordBlockedIsRun(
    db: Ledger, context: Context, q: Request, code: string, message: string, blocker: string, now: string, later: string)
    returns (calls: seq<Call>)
    ensures RecordBlockedCall(db, context, q, code, message, blocker, now, later).0 == Run(db, calls)
    ensures |calls| <= 2 && forall i :: 0 <= i < |calls| ==> Orderly(calls[i])
  {
    var begin := Begin(context, q.(initial := BlockedInitial()), now);
    var (begun, started) := Apply(db, begin);
    calls := [begin];
    RunThenCall(db, [], begin);
    assert [] + [begin] == [begin] && Run(db, []) == db;
    if !started.Raised? && !(IsReplay(started.receipt) && started.receipt.state.Terminal()) {
      var operation := NamedOperation(started.receipt);
      if operation.Some? {
        var update := Update(context.scope, operation.value, Blocked,
                             map["message" := Text(message), "blockerType" := Text(blocker)], Some(code), Some(message), later);
        RunThenCall(db, calls, update);
        calls := calls + [update];
      }
    }
  }

  lemma BlockingIsTerminal(
    db: Ledger, ref: OpRef, patch: Fields, code: Option<string>, message: Option<string>, now: string)
    requires ref in db.operations
    ensures var (db', outcome) := UpdateCall(db, ref.scope, ref.operation, Blocked, patch, code, message, now);
            && outcome.Done? && outcome.receipt.state.Terminal()
            && ref in db'.operations && db'.operations[ref].manifest.receipt.state.Terminal()
            && db'.operations[ref].command.key == db.operations[ref].command.key
  {
  }

  ghost predicate SettledUnder(db: Ledger, scope: string, key: Key) {
    exists ref :: Holds(db, ref, scope, key) && db.operations[ref].manifest.receipt.state.Terminal()
  }

  lemma ReplayNames(op: Id, command: Id, receipt: Receipt)
    ensures NamedOperation(Replayed(op, command, receipt)) == Some(op) && IsReplay(Replayed(op, command, receipt))
    ensures Replayed(op, command, receipt).state == receipt.state
  {
  }

  lemma RecordBlockedOnUsedKey(
    db: Ledger, context: Context, q: Request, code: string, message: string, blocker: string, now: string, later: string)
    requires WellFormed(db) && Taken(db, context.scope, KeyOf(db, q))
    ensures var (db', outcome) := RecordBlockedCall(db, context, q, code, message, blocker, now, later);
            outcome.Done? ==> outcome.receipt.state.Terminal() && SettledUnder(db', context.scope, KeyOf(db, q))
  {
    var ref :| Holds(db, ref, context.scope, KeyOf(db, q));
    var r := db.operations[ref];
    BeginHeld(db, context, q.(initial := BlockedInitial()), now, ref);
    ReplayNames(ref.operation, r.command.id, r.manifest.receipt);
    BlockingIsTerminal(db, ref, map["message" := Text(message), "blockerType" := Text(blocker)], Some(code), Some(message),
                       later);
    var db' := RecordBlockedCall(db, context, q, code, message, blocker, now, later).0;
    assert Holds(db', ref, context.scope, KeyOf(db, q));
  }

  lemma {:induction false} RecordBlockedOnNewKey(
    db: Ledger, context: Context, q: Request, code: string, message: string, blocker: string, now: string, later: string)
    requires WellFormed(db) && !Taken(db, context.scope, KeyOf(db, q))
    ensures var (db', outcome) := RecordBlockedCall(db, context, q, code, message, blocker, now, later);
            outcome.Done? && outcome.receipt.state.Terminal() && SettledUnder(db', context.scope, KeyOf(db, q))
  {
    var q' := q.(initial := BlockedInitial());
    BeginFree(db, context, q', now);
    var begun := BeginCall(db, context, q', now).0;
    var ref := NewRef(db, context, q');
    BlockingIsTerminal(begun, ref, map["message" := Text(message), "blockerType" := Text(blocker)], Some(code),
                       Some(message), later);
    var db' := RecordBlockedCall(db, context, q, code, message, blocker, now, later).0;
    assert NamedOperation(begun.operations[ref].manifest.receipt) == Some(ref.operation);
    assert Holds(db', ref, context.scope, KeyOf(db, q));
  }

  /** Whenever `record_blocked` answers, the key is claimed and its operation is terminal: newly
      `blocked`, or as an earlier call left it. */
  lemma RecordBlockedSettles(
    db: Ledger, context: Context, q: Request, code: string, message: string, blocker: string, now: string, later: string)
    requires WellFormed(db)
    ensures var (db', outcome) := RecordBlockedCall(db, context, q, code, message, blocker, now, later);
            outcome.Done? ==> outcome.receipt.state.Terminal() && SettledUnder(db', context.scope, KeyOf(db, q))
  {
    if Taken(db, context.scope, KeyOf(db, q)) {
      RecordBlockedOnUsedKey(db, context, q, code, message, blocker, now, later);
    } else {
      RecordBlockedOnNewKey(db, context, q, code, message, blocker, now, later);
    }
  }

  // ---------- calls about other operations ----------

  /** The call neither begins under `key` nor names the operation that holds it. */
  ghost predicate Foreign(db: Ledger, call: Call, scope: string, key: Key) {
    match call
    case Begin(c, q, _) => c.scope == scope ==> KeyOf(db, q) != key
    case Update(s, op, _, _, _, _, _) => !Holds(db, OpRef(s, op), scope, key)
    case Retry(s, op, _) => !Holds(db, OpRef(s, op), scope, key)
  }

  /** Such a call neither claims the key nor touches the rows of the operation that holds it. */
  lemma {:induction false} ForeignCallFrame(db: Ledger, call: Call, scope: string, key: Key)
    requires WellFormed(db) && Foreign(db, call, scope, key)
    ensures var db' := Apply(db, call).0;
            && WellFormed(db')
            && (!Taken(db, scope, key) ==> !Taken(db', scope, key))
            && (forall ref :: Holds(db, ref, scope, key) ==>
                  ref in db'.operations && db'.operations[ref] == db.operations[ref])
  {
    EffectOfCall(db, call);
    if !Taken(db, scope, key) {
      forall ref | ref in Apply(db, call).0.operations
        ensures !Holds(Apply(db, call).0, ref, scope, key)
      {
        assert !Holds(db, ref, scope, key);
      }
    }
  }

  // ---------- what the calls answer ----------

  /** A call on an operation that is not there is refused; one that finds nothing to do answers the
      receipt as it is; any other answers the receipt it has written. */
  lemma CallAnswers(db: Ledger, call: Call)
    requires !call.Begin?
    ensures var ref, (after, outcome) := OpRef(call.scope, call.operation), Apply(db, call);
            && (outcome == Raised(OperationMissing) <==> ref !in db.operations) && (outcome.Raised? ==> after == db)
            && (ref in db.operations ==> ref in after.operations && outcome == Done(after.operations[ref].manifest.receipt))
  {
  }

  /** Exactly when an update or a retry takes effect, by the state it finds; otherwise nothing is
      written at all. */
  lemma CallTakesEffectIff(db: Ledger, call: Call)
    requires !call.Begin? && OpRef(call.scope, call.operation) in db.operations
    ensures var ref := OpRef(call.scope, call.operation);
            var r, after := db.operations[ref], Apply(db, call).0;
            var state := r.manifest.receipt.state;
            if (call.Update? && Final(state)) || (call.Retry? && state != FailedRetryable) then after == db
            else
              && after.nextId == db.nextId && after.operations.Keys == db.operations.Keys
              && |after.operations[ref].audit| == |r.audit| + 1
              && after.operations[ref].manifest.receipt.state == if call.Update? then call.state else Queued
  {
  }

  lemma NewRowsTellOutbox(db: Ledger, context: Context, q: Request, now: string)
    ensures OutboxTold(NewRows(db, context, q, now))
  {
  }

  lemma ChangedTellsOutbox(db: Ledger, call: Call, ref: OpRef)
    requires Changes(db, call, ref)
    ensures OutboxTold(Changed(db, call, ref))
  {
  }

  lemma {:induction false} OutboxIsTold(calls: seq<Call>)
    ensures forall ref :: ref in Run(EMPTY, calls).operations ==> OutboxTold(Run(EMPTY, calls).operations[ref])
  {
    if calls != [] {
      var db, call := Run(EMPTY, calls[..|calls| - 1]), calls[|calls| - 1];
      OutboxIsTold(calls[..|calls| - 1]);
      RunKeepsWellFormed(calls[..|calls| - 1]);
      EffectOfCall(db, call);
      forall ref | ref in Apply(db, call).0.operations
        ensures OutboxTold(Apply(db, call).0.operations[ref])
      {
        if ref !in db.operations {
          NewRowsTellOutbox(db, call.context, call.request, call.now);
        } else if Changes(db, call, ref) {
          ChangedTellsOutbox(db, call, ref);
        }
      }
    }
  }

  /** The outbox over runs: an event is published exactly when it has a time of publication, and over
      orderly runs it is undeliverable exactly when a dead letter of its operation is open. */
  lemma OutboxOverRuns(calls: seq<Call>, ref: OpRef)
    requires ref in Run(EMPTY, calls).operations
    ensures var r := Run(EMPTY, calls).operations[ref];
            && (r.outbox.status == Published <==> r.outbox.publishedAt.Some?)
            && ((forall i :: 0 <= i < |calls| ==> Orderly(calls[i])) ==>
                  (r.outbox.status == Undeliverable <==> exists i :: 0 <= i < |r.deadLetters| && r.deadLetters[i].status == Open))
  {
    OutboxIsTold(calls);
    if forall i :: 0 <= i < |calls| ==> Orderly(calls[i]) {
      FailureAccounting(calls);
      OpenLettersZero(Run(EMPTY, calls).operations[ref].deadLetters);
    }
  }

  /** The operation is blocked with this code, message and blocker, and so are its failed event and
      its one open letter. */
  ghost predicate BlockedAs(r: Rows, code: string, message: string, blocker: string) {
    && r.manifest.receipt.state == Blocked && r.manifest.receipt.retryable && !r.manifest.receipt.polling
    && Says(r.manifest.receipt.entries, "errorCode", Text(code)) && Says(r.manifest.receipt.entries, "error", Text(message))
    && Says(r.manifest.receipt.entries, "message", Text(message)) && Says(r.manifest.receipt.entries, "blockerType", Text(blocker))
    && r.command.status == CommandFailed && r.outbox.status == Undeliverable
  }

  function BlockingPatch(message: string, blocker: string): Fields {
    map["message" := Text(message), "blockerType" := Text(blocker)]
  }

  lemma UpdateBlocks(r: Rows, code: string, message: string, blocker: string, now: string)
    requires Sealed(r)
    ensures BlockedAs(UpdatedRows(r, Blocked, BlockingPatch(message, blocker), Some(code), Some(message), now), code, message, blocker)
  {
  }

  lemma BlockingOpensLetter(r: Rows, patch: Fields, code: string, message: string, now: string)
    requires r.deadLetters == [] && code != "" && message != ""
    ensures UpdatedRows(r, Blocked, patch, Some(code), Some(message), now).deadLetters == [DeadLetter(code, Open, message, now, None, 1)]
  {
    FailureOpensLetter(r, Blocked, patch, Some(code), Some(message), now);
  }

  lemma RecordBlockedUpdatesNew(
    db: Ledger, context: Context, q: Request, code: string, message: string, blocker: string, now: string, later: string)
    requires WellFormed(db) && !Taken(db, context.scope, KeyOf(db, q))
    ensures var after := RecordBlockedCall(db, context, q, code, message, blocker, now, later).0;
            var ref, r := NewRef(db, context, q), NewRows(db, context, q.(initial := BlockedInitial()), now);
            && ref in after.operations
            && after.operations[ref] == UpdatedRows(r, Blocked, BlockingPatch(message, blocker), Some(code), Some(message), later)
  {
    var q' := q.(initial := BlockedInitial());
    BeginFree(db, context, q', now);
    var r := NewRows(db, context, q', now);
    assert NamedOperation(r.manifest.receipt) == Some(NewRef(db, context, q').operation);
  }

  /** On a new key `record_blocked` leaves an operation blocked as told, with a dead letter that says
      the same. */
  lemma RecordBlockedTells(
    db: Ledger, context: Context, q: Request, code: string, message: string, blocker: string, now: string, later: string)
    requires WellFormed(db) && !Taken(db, context.scope, KeyOf(db, q)) && code != "" && message != ""
    ensures var after := RecordBlockedCall(db, context, q, code, message, blocker, now, later).0;
            var ref := NewRef(db, context, q);
            && ref in after.operations && BlockedAs(after.operations[ref], code, message, blocker)
            && after.operations[ref].deadLetters == [DeadLetter(code, Open, message, later, None, 1)]
  {
    RecordBlockedUpdatesNew(db, context, q, code, message, blocker, now, later);
    NewRowsKeep(db, context, q.(initial := BlockedInitial()), now);
    var r := NewRows(db, context, q.(initial := BlockedInitial()), now);
    UpdateBlocks(r, code, message, blocker, later);
    BlockingOpensLetter(r, BlockingPatch(message, blocker), code, message, later);
  }

  lemma RecordBlockedOnHeldIs(
    db: Ledger, ref: OpRef, context: Context, q: Request, code: string, message: string, blocker: string, now: string,
    later: string)
    requires WellFormed(db) && Holds(db, ref, context.scope, KeyOf(db, q))
    ensures var r, call := db.operations[ref], RecordBlockedCall(db, context, q, code, message, blocker, now, later);
            if r.command.commandType != q.commandType || r.command.payloadHash != PayloadDigest(q.payload) then
              call.0 == db && call.1.Raised?
            else if Final(r.manifest.receipt.state) then call == (db, Done(Replayed(ref.operation, r.command.id, r.manifest.receipt)))
            else call.0 == db.Rewritten(ref, UpdatedRows(r, Blocked, BlockingPatch(message, blocker), Some(code), Some(message), later))
  {
    var r := db.operations[ref];
    BeginHeld(db, context, q.(initial := BlockedInitial()), now, ref);
    ReplayNames(ref.operation, r.command.id, r.manifest.receipt);
  }

  /** On a used key it changes nothing if the payload or type is another's or the operation is final
      already, and otherwise blocks that operation as told. */
  lemma RecordBlockedOnHeld(
    db: Ledger, ref: OpRef, context: Context, q: Request, code: string, message: string, blocker: string, now: string,
    later: string)
    requires WellFormed(db) && Holds(db, ref, context.scope, KeyOf(db, q)) && Sealed(db.operations[ref])
    ensures var (after, outcome) := RecordBlockedCall(db, context, q, code, message, blocker, now, later);
            var r := db.operations[ref];
            if r.command.commandType != q.commandType || r.manifest.payload != q.payload then after == db && outcome.Raised?
            else if Final(r.manifest.receipt.state) then
              after == db && outcome.Done? && outcome.receipt.state == r.manifest.receipt.state && IsReplay(outcome.receipt)
            else ref in after.operations && BlockedAs(after.operations[ref], code, message, blocker)
  {
    var r := db.operations[ref];
    RecordBlockedOnHeldIs(db, ref, context, q, code, message, blocker, now, later);
    ReplayNames(ref.operation, r.command.id, r.manifest.receipt);
    UpdateBlocks(r, code, message, blocker, later);
  }

  /** A `begin` on a free key adds one operation, filed under what the caller asked and who the caller
      is, and changes no other. */
  lemma BeginFilesRequest(db: Ledger, context: Context, q: Request, now: string)
    requires WellFormed(db) && !Taken(db, context.scope, KeyOf(db, q))
    ensures var (after, outcome) := BeginCall(db, context, q, now);
            var ref := NewRef(db, context, q);
            && ref !in db.operations && after.operations == db.operations[ref := after.operations[ref]]
            && outcome == Done(after.operations[ref].manifest.receipt)
            && var r := after.operations[ref];
               && ref.scope == context.scope && r.manifest.payload == q.payload
               && (q.key != "" ==> r.command.key == Supplied(q.key)) && (q.key == "" ==> r.command.key.Generated?)
               && r.command.commandType == q.commandType && r.command.aggregateType == q.aggregateType
               && r.command.aggregateId == q.aggregateId && r.command.principal == context.principal
               && r.command.membership == context.membership && r.command.submittedAt == now
  {
    BeginFree(db, context, q, now);
    EffectOfCall(db, Begin(context, q, now));
  }

  /** Where `record_blocked` stops if it dies between its two calls: processing, to be retried but not
      polled. */
  lemma BlockingBegins(db: Ledger, context: Context, q: Request, now: string)
    ensures var receipt := NewRows(db, context, q.(initial := BlockedInitial()), now).manifest.receipt;
            receipt.state == Processing && receipt.retryable && !receipt.polling
  {
  }
}
