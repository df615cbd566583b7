/** The repository object: seven tables updated statement by statement, each method proved to do to
    them what `LedgerRuns` says the call does to the ledger. */
module LedgerRepository {
  import opened Json
  import opened Options
  import opened OperationLedger
  import opened LedgerRuns

  /** The tables, each indexed by the columns its statements select on. */
  datatype TableSet = TableSet(
    commands: map<OpRef, Command>,
    manifests: map<(string, Id), Manifest>,
    idempotency: map<(string, Key), IdempotencyRecord>,
    attempts: map<Id, seq<Attempt>>,
    outbox: map<OpRef, OutboxEvent>,
    deadLetters: map<OpRef, seq<DeadLetter>>,
    audit: map<OpRef, seq<AuditEvent>>)
  {
    /** The rows of `ref` are there in all seven tables. */
    ghost predicate Has(ref: OpRef) {
      && ref in commands
      && (ref.scope, commands[ref].manifestId) in manifests
      && (ref.scope, commands[ref].key) in idempotency
      && commands[ref].id in attempts
      && ref in outbox && ref in deadLetters && ref in audit
    }

    ghost function RowsOf(ref: OpRef): Rows
      requires Has(ref)
    {
      var c := commands[ref];
      Rows(c, manifests[(ref.scope, c.manifestId)], idempotency[(ref.scope, c.key)], attempts[c.id],
           outbox[ref], deadLetters[ref], audit[ref])
    }

    /** The tables hold exactly the ledger `db`: its operations, and no idempotency record besides
        theirs. */
    ghost predicate Show(db: Ledger) {
      && commands.Keys == db.operations.Keys
      && (forall ref :: ref in commands ==> Has(ref) && RowsOf(ref) == db.operations[ref])
      && (forall scope, key {:trigger Taken(db, scope, key)} :: (scope, key) in idempotency ==> Taken(db, scope, key))
    }

    /** All seven rows of one operation written. */
    ghost function With(ref: OpRef, r: Rows): TableSet {
      TableSet(
        commands[ref := r.command],
        manifests[(ref.scope, r.command.manifestId) := r.manifest],
        idempotency[(ref.scope, r.command.key) := r.idempotency],
        attempts[r.command.id := r.attempts],
        outbox[ref := r.outbox],
        deadLetters[ref := r.deadLetters],
        audit[ref := r.audit])
    }
  }

  lemma WithSelf(t: TableSet, ref: OpRef, r: Rows)
    ensures t.With(ref, r).Has(ref) && t.With(ref, r).RowsOf(ref) == r
  {
  }

  lemma WithTaken(ref: OpRef, r: Rows, db: Ledger, db': Ledger, scope: string, key: Key)
    requires ref in db.operations ==> db.operations[ref].command.key == r.command.key
    requires db'.operations == db.operations[ref := r]
    requires (scope == ref.scope && key == r.command.key) || Taken(db, scope, key)
    ensures Taken(db', scope, key)
  {
    if scope == ref.scope && key == r.command.key {
      assert Holds(db', ref, scope, key);
    } else {
      var o :| Holds(db, o, scope, key);
      assert Holds(db', o, scope, key);
    }
  }

  lemma WithOtherShown(t: TableSet, ref: OpRef, r: Rows, db: Ledger, o: OpRef)
    requires t.Show(db) && o in db.operations && o != ref && Separate(o, db.operations[o], ref, r)
    ensures t.With(ref, r).Has(o) && t.With(ref, r).RowsOf(o) == db.operations[o]
  {
  }

  lemma WithKeysShown(t: TableSet, ref: OpRef, r: Rows, db: Ledger, db': Ledger)
    requires t.Show(db) && db'.operations == db.operations[ref := r]
    requires ref in db.operations ==> db.operations[ref].command.key == r.command.key
    ensures forall scope, key {:trigger Taken(db', scope, key)} ::
              (scope, key) in t.With(ref, r).idempotency ==> Taken(db', scope, key)
  {
    forall scope, key | (scope, key) in t.With(ref, r).idempotency
      ensures Taken(db', scope, key)
    {
      assert (scope == ref.scope && key == r.command.key) || Taken(db, scope, key);
      WithTaken(ref, r, db, db', scope, key);
    }
  }

  /** Writing the rows of one operation changes that operation in the ledger and no other. */
  lemma WithShows(t: TableSet, ref: OpRef, r: Rows, db: Ledger, db': Ledger, t': TableSet)
    requires t.Show(db) && t' == t.With(ref, r)
    requires forall o :: o in db.operations && o != ref ==> Separate(o, db.operations[o], ref, r)
    requires db'.operations == db.operations[ref := r]
    requires ref in db.operations ==> db.operations[ref].command.key == r.command.key
    ensures t'.Show(db')
  {
    forall o | o in t'.commands
      ensures t'.Has(o) && t'.RowsOf(o) == db'.operations[o]
    {
      if o == ref { WithSelf(t, ref, r); } else { WithOtherShown(t, ref, r, db, o); }
    }
    WithKeysShown(t, ref, r, db, db');
  }

  /** One operation rewritten under its own ids and key, in the tables and in the ledger. */
  lemma Rewrite(t: TableSet, db: Ledger, ref: OpRef, r: Rows, t': TableSet) returns (db': Ledger)
    requires WellFormed(db) && t.Show(db) && ref in db.operations && t' == t.With(ref, r)
    requires r.command.id == db.operations[ref].command.id
    requires r.command.manifestId == db.operations[ref].command.manifestId
    requires r.command.key == db.operations[ref].command.key
    ensures db' == db.Rewritten(ref, r) && WellFormed(db') && t'.Show(db')
  {
    db' := db.Rewritten(ref, r);
    RewriteKeepsWellFormed(db, ref, r);
    assert forall o :: o in db.operations && o != ref ==> Separate(o, db'.operations[o], ref, db'.operations[ref]);
    WithShows(t, ref, r, db, db', t');
  }

  /** A new operation inserted under ids and a key nothing else uses. */
  lemma Insert(t: TableSet, db: Ledger, ref: OpRef, r: Rows, limit: Id, t': TableSet) returns (db': Ledger)
    requires WellFormed(db) && t.Show(db) && t' == t.With(ref, r)
    requires db.nextId <= limit && IdsBelow(ref, r, limit) && !Taken(db, ref.scope, r.command.key)
    requires db.nextId <= ref.operation && db.nextId <= r.command.id && db.nextId <= r.command.manifestId
    ensures db' == Ledger(limit, db.operations[ref := r]) && WellFormed(db') && t'.Show(db')
  {
    db' := Ledger(limit, db.operations[ref := r]);
    InsertKeepsWellFormed(db, ref, r, limit);
    assert forall o :: o in db.operations && o != ref ==> Separate(o, db'.operations[o], ref, db'.operations[ref]);
    WithShows(t, ref, r, db, db', t');
  }

  class LocalPlatformOperationRepository {
    var nextId: Id
    var commands: map<OpRef, Command>
    var manifests: map<(string, Id), Manifest>
    var idempotency: map<(string, Key), IdempotencyRecord>
    var attempts: map<Id, seq<Attempt>>
    var outbox: map<OpRef, OutboxEvent>
    var deadLetters: map<OpRef, seq<DeadLetter>>
    var audit: map<OpRef, seq<AuditEvent>>
    ghost var contents: Ledger  // what the tables hold

    ghost function Tables(): TableSet
      reads this
    {
      TableSet(commands, manifests, idempotency, attempts, outbox, deadLetters, audit)
    }

    ghost predicate Valid()
      reads this
    {
      nextId == contents.nextId && WellFormed(contents) && Tables().Show(contents)
    }

    constructor ()
      ensures Valid() && contents == EMPTY
    {
      nextId := 0;
      commands, manifests, idempotency, attempts := map[], map[], map[], map[];
      outbox, deadLetters, audit := map[], map[], map[];
      contents := EMPTY;
    }

    method NewId() returns (id: Id)
      modifies this`nextId
      ensures id == old(nextId) && nextId == old(nextId) + 1
    {
      id := nextId;
      nextId := nextId + 1;
    }

    method NewIds() returns (command: Id, operation: Id, manifest: Id)
      modifies this`nextId
      ensures command == old(nextId) && operation == command + 1 && manifest == command + 2 && nextId == command + 3
    {
      command := NewId();
      operation := NewId();
      manifest := NewId();
    }

    /** Rewrites the receipt and carries its digest into the idempotency record. */
    method WriteReceipt(ref: OpRef, receipt: Receipt, now: string) returns (hash: Digest)
      requires Tables().Has(ref)
      modifies this`manifests, this`idempotency
      ensures hash == ReceiptDigest(old(Tables().RowsOf(ref).manifest.payload), receipt)
      ensures manifests == old(manifests)[(ref.scope, commands[ref].manifestId) :=
        Resealed(old(manifests[(ref.scope, commands[ref].manifestId)]), receipt, now)]
      ensures idempotency == old(idempotency)[(ref.scope, commands[ref].key) :=
        old(idempotency[(ref.scope, commands[ref].key)]).(resultHash := hash, status := IdempotencyStatusOf(receipt.state))]
    {
      var c := commands[ref];
      var m := manifests[(ref.scope, c.manifestId)];
      hash := ReceiptDigest(m.payload, receipt);
      manifests := manifests[(ref.scope, c.manifestId) :=
        m.(receipt := receipt, contentHash := hash, receiptHash := hash, verifiedAt := now)];
      idempotency := idempotency[(ref.scope, c.key) :=
        idempotency[(ref.scope, c.key)].(resultHash := hash, status := IdempotencyStatusOf(receipt.state))];
    }

    method Audit(ref: OpRef, action: Action, hash: Digest, now: string)
      requires ref in commands && ref in audit
      modifies this`audit
      ensures audit == old(audit)[ref := old(audit[ref]) + [AuditEvent(commands[ref].commandType, action, hash, now)]]
    {
      audit := audit[ref := audit[ref] + [AuditEvent(commands[ref].commandType, action, hash, now)]];
    }

    /** Carries a new receipt and its state into all seven tables. */
    method WriteUpdate(ref: OpRef, receipt: Receipt, code: Option<string>, message: Option<string>, now: string)
      requires Tables().Has(ref)
      modifies this`commands, this`manifests, this`idempotency, this`attempts, this`outbox, this`deadLetters, this`audit
      ensures Tables() == old(Tables()).With(ref, Updated(old(Tables().RowsOf(ref)), receipt, code, message, now))
    {
      ghost var r := Updated(Tables().RowsOf(ref), receipt, code, message, now);
      var state, status := receipt.state, CommandStatusOf(receipt.state);
      var hash := WriteReceipt(ref, receipt, now);
      var command := commands[ref];
      commands := commands[ref := command.(status := status, settledAt := if status.Sending? then None else Some(now))];
      attempts := attempts[command.id :=
        FinishLatest(attempts[command.id], state, hash, if state.Terminal() then Some(now) else None)];
      outbox := outbox[ref := outbox[ref].(
        status := OutboxStatusOf(status), eventHash := hash, publishedAt := if status.Settled? then Some(now) else None)];
      if status.CommandFailed? {
        deadLetters := deadLetters[ref := WithOpenLetter(deadLetters[ref], NewLetter(code, message, now))];
      }
      assert deadLetters == old(deadLetters)[ref := r.deadLetters];
      Audit(ref, Entered(state), hash, now);
    }

    method StoreUpdate(ref: OpRef, receipt: Receipt, code: Option<string>, message: Option<string>, now: string)
      requires Valid() && ref in contents.operations
      modifies this
      ensures Valid()
      ensures contents == old(contents).Rewritten(
        ref, Updated(old(contents).operations[ref], receipt, code, message, now))
    {
      ghost var t, r := Tables(), Updated(contents.operations[ref], receipt, code, message, now);
      WriteUpdate(ref, receipt, code, message, now);
      contents := Rewrite(t, contents, ref, r, Tables());
    }

    method Update(
      scope: string, operation: Id, state: State, patch: Fields,
      code: Option<string>, message: Option<string>, now: string) returns (outcome: Outcome)
      requires Valid()
      modifies this
      ensures Valid()
      ensures (contents, outcome) == UpdateCall(old(contents), scope, operation, state, patch, code, message, now)
    {
      var ref := OpRef(scope, operation);
      if ref !in commands {
        outcome := Raised(OperationMissing);
      } else {
        var previous := manifests[(scope, commands[ref].manifestId)].receipt;
        outcome := Done(previous);
        if !previous.state.Terminal() {
          var receipt := UpdatedReceipt(previous, state, patch, code, message, now);
          StoreUpdate(ref, receipt, code, message, now);
          outcome := Done(receipt);
        }
      }
    }

    /** Queues a new attempt and settles the open dead letter. */
    method WriteRetry(ref: OpRef, receipt: Receipt, now: string)
      requires Tables().Has(ref)
      modifies this`commands, this`manifests, this`idempotency, this`attempts, this`outbox, this`deadLetters, this`audit
      ensures Tables() == old(Tables()).With(ref, Requeued(old(Tables().RowsOf(ref)), receipt, now))
    {
      var hash := WriteReceipt(ref, receipt, now);
      var command := commands[ref];
      var number := MaxNumber(attempts[command.id]) + 1;
      commands := commands[ref := command.(status := Sending, settledAt := None)];
      attempts := attempts[command.id := attempts[command.id] + [Attempt(number, Queued, hash, now, None)]];
      outbox := outbox[ref := outbox[ref].(status := Waiting, eventHash := hash, publishedAt := None)];
      deadLetters := deadLetters[ref := ResolveOpen(deadLetters[ref], now)];
      Audit(ref, RetryQueued, hash, now);
    }

    method StoreRetry(ref: OpRef, receipt: Receipt, now: string)
      requires Valid() && ref in contents.operations
      modifies this
      ensures Valid()
      ensures contents == old(contents).Rewritten(ref, Requeued(old(contents).operations[ref], receipt, now))
    {
      ghost var t, r := Tables(), Requeued(contents.operations[ref], receipt, now);
      WriteRetry(ref, receipt, now);
      contents := Rewrite(t, contents, ref, r, Tables());
    }

    method Retry(scope: string, operation: Id, now: string) returns (outcome: Outcome)
      requires Valid()
      modifies this
      ensures Valid()
      ensures (contents, outcome) == RetryCall(old(contents), scope, operation, now)
    {
      var ref := OpRef(scope, operation);
      if ref !in commands {
        outcome := Raised(OperationMissing);
      } else {
        var previous := manifests[(scope, commands[ref].manifestId)].receipt;
        outcome := Done(previous);
        if previous.state == FailedRetryable {
          var receipt := RetriedReceipt(previous, now);
          StoreRetry(ref, receipt, now);
          outcome := Done(receipt);
        }
      }
    }

    method WriteBegin(ref: OpRef, command: Command, receipt: Receipt, payload: Fields, now: string)
      modifies this`commands, this`manifests, this`idempotency, this`attempts, this`outbox, this`deadLetters, this`audit
      ensures Tables() == old(Tables()).With(ref, Created(command, payload, receipt, now))
    {
      var hash := ReceiptDigest(payload, receipt);
      manifests := manifests[(ref.scope, command.manifestId) := Manifest(payload, receipt, hash, hash, now)];
      idempotency := idempotency[(ref.scope, command.key) :=
        IdempotencyRecord(PayloadDigest(payload), hash, command.manifestId, Pending)];
      commands := commands[ref := command];
      attempts := attempts[command.id := [Attempt(1, Processing, hash, now, None)]];
      outbox := outbox[ref := OutboxEvent(command.commandType, Waiting, hash, now, None)];
      deadLetters := deadLetters[ref := []];
      audit := audit[ref := [AuditEvent(command.commandType, Started, hash, now)]];
    }

    method StoreBegin(ref: OpRef, command: Command, receipt: Receipt, payload: Fields, now: string)
      requires WellFormed(contents) && Tables().Show(contents) && contents.nextId <= nextId
      requires contents.nextId <= ref.operation < nextId
      requires contents.nextId <= command.id < nextId && contents.nextId <= command.manifestId < nextId
      requires !Taken(contents, ref.scope, command.key) && (command.key.Generated? ==> command.key.id < nextId)
      modifies this
      ensures Valid()
      ensures contents == Ledger(old(nextId), old(contents).operations[ref := Created(command, payload, receipt, now)])
    {
      ghost var t := Tables();
      WriteBegin(ref, command, receipt, payload, now);
      contents := Insert(t, contents, ref, Created(command, payload, receipt, now), nextId, Tables());
    }

    /** The first `begin` under a key, as one transaction. */
    method CommitBegin(context: Context, key: Key, q: Request, now: string) returns (receipt: Receipt)
      requires nextId == FirstFreeId(contents, q) && WellFormed(contents) && Tables().Show(contents)
      requires key == KeyOf(contents, q) && !Taken(contents, context.scope, key)
      modifies this
      ensures Valid()
      ensures receipt == NewRows(old(contents), context, q, now).manifest.receipt
      ensures contents == Ledger(FirstFreeId(old(contents), q) + 3, old(contents).operations[
        NewRef(old(contents), context, q) := NewRows(old(contents), context, q, now)])
    {
      NewRowsAre(contents, context, q, now);
      var commandId, operation, manifestId := NewIds();
      receipt := BegunReceipt(q.initial, commandId, operation, context, now);
      var command := NewCommand(commandId, key, q, context, manifestId, now);
      StoreBegin(OpRef(context.scope, operation), command, receipt, q.payload, now);
    }

    /** `idempotency_key or new_id()`. */
    method ResolveKey(q: Request) returns (key: Key)
      requires nextId == contents.nextId
      modifies this`nextId
      ensures key == KeyOf(contents, q) && nextId == FirstFreeId(contents, q)
    {
      key := Supplied(q.key);
      if q.key == "" {
        var id := NewId();
        key := Generated(id);
      }
    }

    method Begin(context: Context, q: Request, now: string) returns (outcome: Outcome)
      requires Valid()
      modifies this
      ensures Valid()
      ensures outcome == BeginCall(old(contents), context, q, now).1
      ensures contents == BeginCall(old(contents), context, q, now).0
    {
      var key := ResolveKey(q);
      KeyInUse(contents, Tables(), context.scope, key);
      if existing :| existing in commands && existing.scope == context.scope
                     && commands[existing].commandType == q.commandType && commands[existing].key == key
      {
        BeginHeld(contents, context, q, now, existing);
        if commands[existing].payloadHash != PayloadDigest(q.payload) {
          outcome := Raised(PayloadConflict);
        } else {
          var receipt := manifests[(context.scope, commands[existing].manifestId)].receipt;
          outcome := Done(Replayed(existing.operation, commands[existing].id, receipt));
        }
      } else if (context.scope, key) in idempotency {
        ghost var holder :| Holds(contents, holder, context.scope, key);
        BeginHeld(contents, context, q, now, holder);
        outcome := Raised(KeyConflict);
      } else {
        BeginFree(contents, context, q, now);
        var receipt := CommitBegin(context, key, q, now);
        outcome := Done(receipt);
      }
    }

    method RecordBlocked(
      context: Context, q: Request, code: string, message: string, blocker: string, now: string, later: string)
      returns (outcome: Outcome)
      requires Valid()
      modifies this
      ensures Valid()
      ensures (contents, outcome) == RecordBlockedCall(old(contents), context, q, code, message, blocker, now, later)
    {
      outcome := Begin(context, q.(initial := BlockedInitial()), now);
      if outcome.Raised? || (IsReplay(outcome.receipt) && outcome.receipt.state.Terminal()) {
        return;
      }
      var named := NamedOperation(outcome.receipt);
      if named.None? {
        return Raised(OperationMissing);
      }
      outcome := Update(context.scope, named.value, Blocked,
                        map["message" := Text(message), "blockerType" := Text(blocker)], Some(code), Some(message), later);
    }
  }

  function NewCommand(id: Id, key: Key, q: Request, context: Context, manifest: Id, now: string): Command {
    Command(id, key, q.commandType, q.aggregateType, q.aggregateId, context.principal, context.membership, manifest,
            PayloadDigest(q.payload), Sending, now, None)
  }

  lemma NewRowsAre(db: Ledger, context: Context, q: Request, now: string)
    ensures var id := FirstFreeId(db, q);
            var receipt := BegunReceipt(q.initial, id, id + 1, context, now);
            && NewRef(db, context, q) == OpRef(context.scope, id + 1)
            && NewRows(db, context, q, now) == Created(NewCommand(id, KeyOf(db, q), q, context, id + 2, now), q.payload, receipt, now)
            && NewRows(db, context, q, now).manifest.receipt == receipt
  {
  }

  /** The idempotency table knows a key exactly when an operation holds it; no operation holds a
      key generated just now. */
  lemma KeyInUse(db: Ledger, t: TableSet, scope: string, key: Key)
    requires WellFormed(db) && t.Show(db)
    ensures (scope, key) in t.idempotency <==> Taken(db, scope, key)
    ensures key == Generated(db.nextId) ==> !Taken(db, scope, key)
  {
  }
}
