/** The seven tables behind a device operation, and what `begin`, `update` and `retry` do to the
    rows of one operation. */
module OperationLedger {
  import opened Json
  import opened Options

  type Id = nat

  /** `idempotency_key or new_id()`: an empty key is replaced by a generated one. */
  datatype Key = Supplied(name: string) | Generated(id: Id)

  datatype Context = Context(scope: string, sandbox: string, principal: string, membership: Option<string>)

  /** The states an operation goes by. `Other` stands for any further text. */
  datatype State =
    | Blocked | Cancelled | Completed | Failed | FailedRetryable | Succeeded
    | Queued | Processing | Cancelling
    | Other(name: string)
  {
    predicate Terminal() {
      Blocked? || Cancelled? || Completed? || Failed? || FailedRetryable? || Succeeded?
    }

    predicate Settling() {
      Cancelled? || Completed? || Succeeded?
    }

    predicate Polling() {
      Queued? || Processing? || Cancelling?
    }

    /** The states that callers of `update` pass. */
    predicate Recognised() {
      Terminal() || Polling()
    }
  }

  /** The stored result of an operation: the entries every call sets, and all others. */
  datatype Receipt = Receipt(state: State, updatedAt: string, retryable: bool, polling: bool, entries: Fields)

  /** The `initial_result` a caller hands to `begin`; `None` for an entry it leaves out. */
  datatype Initial = Initial(state: Option<State>, retryable: Option<bool>, polling: Option<bool>, entries: Fields)

  /** SHA-256 over canonical JSON. A digest stands for the document it was taken of, so two
      digests are equal exactly when the documents are. */
  datatype Digest = PayloadDigest(payload: Fields) | ReceiptDigest(payload: Fields, receipt: Receipt)

  datatype CommandStatus = Sending | Settled | CommandFailed
  datatype IdempotencyStatus = Pending | Closed
  datatype OutboxStatus = Waiting | Published | Undeliverable
  datatype LetterStatus = Open | Resolved
  datatype Action = Started | Entered(state: State) | RetryQueued

  datatype Manifest = Manifest(
    payload: Fields, receipt: Receipt, contentHash: Digest, receiptHash: Digest, verifiedAt: string)

  datatype IdempotencyRecord = IdempotencyRecord(
    payloadHash: Digest, resultHash: Digest, manifestId: Id, status: IdempotencyStatus)

  datatype Command = Command(
    id: Id, key: Key, commandType: string, aggregateType: string, aggregateId: string,
    principal: string, membership: Option<string>,
    manifestId: Id, payloadHash: Digest, status: CommandStatus, submittedAt: string, settledAt: Option<string>)

  datatype Attempt = Attempt(
    number: nat, transport: State, receiptHash: Digest, startedAt: string, finishedAt: Option<string>)

  datatype OutboxEvent = OutboxEvent(
    eventType: string, status: OutboxStatus, eventHash: Digest, availableAt: string, publishedAt: Option<string>)

  datatype DeadLetter = DeadLetter(
    errorCode: string, status: LetterStatus, message: string,
    createdAt: string, resolvedAt: Option<string>, version: nat)

  datatype AuditEvent = AuditEvent(commandType: string, action: Action, eventHash: Digest, occurredAt: string)

  /** Everything the seven tables hold about one operation. */
  datatype Rows = Rows(
    command: Command, manifest: Manifest, idempotency: IdempotencyRecord, attempts: seq<Attempt>,
    outbox: OutboxEvent, deadLetters: seq<DeadLetter>, audit: seq<AuditEvent>)

  function CommandStatusOf(state: State): CommandStatus {
    if state.Settling() then Settled else if state.Polling() then Sending else CommandFailed
  }

  function OutboxStatusOf(status: CommandStatus): OutboxStatus {
    match status
    case Settled => Published
    case Sending => Waiting
    case CommandFailed => Undeliverable
  }

  function IdempotencyStatusOf(state: State): IdempotencyStatus {
    if state.Terminal() then Closed else Pending
  }

  function OptionalText(text: Option<string>): Json {
    match text
    case None => Null
    case Some(s) => Text(s)
  }

  // ---------- begin ----------

  function BegunReceipt(initial: Initial, command: Id, operation: Id, context: Context, now: string): Receipt {
    Receipt(
      initial.state.GetOr(Processing), now, initial.retryable.GetOr(true), initial.polling.GetOr(true),
      initial.entries + map[
        "commandId" := Number(command),
        "operationId" := Number(operation),
        "sandboxId" := Text(context.sandbox),
        "createdAt" := Text(now)])
  }

  /** What a first `begin` inserts. The attempt is always inserted as `processing`, the command as
      `sending`, the idempotency record and the outbox event as `pending`, whatever state
      `initial` names. */
  function BegunRows(
    operation: Id, command: Id, manifest: Id, context: Context, key: Key, commandType: string,
    aggregateType: string, aggregateId: string, payload: Fields, initial: Initial, now: string): Rows
  {
    Created(
      Command(command, key, commandType, aggregateType, aggregateId, context.principal, context.membership,
              manifest, PayloadDigest(payload), Sending, now, None),
      payload, BegunReceipt(initial, command, operation, context, now), now)
  }

  /** The rows around a new command. */
  function Created(command: Command, payload: Fields, receipt: Receipt, now: string): Rows {
    var hash := ReceiptDigest(payload, receipt);
    Rows(
      command,
      Manifest(payload, receipt, hash, hash, now),
      IdempotencyRecord(PayloadDigest(payload), hash, command.manifestId, Pending),
      [Attempt(1, Processing, hash, now, None)],
      OutboxEvent(command.commandType, Waiting, hash, now, None),
      [],
      [AuditEvent(command.commandType, Started, hash, now)])
  }

  /** What a repeated `begin` answers. */
  function Replayed(operation: Id, command: Id, receipt: Receipt): Receipt {
    receipt.(entries := receipt.entries + map[
      "commandId" := Number(command),
      "operationId" := Number(operation),
      "idempotentReplay" := Bool(true)])
  }

  // ---------- update ----------

  function UpdatedReceipt(
    previous: Receipt, state: State, patch: Fields, code: Option<string>, message: Option<string>, now: string): Receipt
  {
    Receipt(state, now, state.Blocked? || state.FailedRetryable?, state.Polling(),
            previous.entries + patch + map["errorCode" := OptionalText(code), "error" := OptionalText(message)])
  }

  /** `MAX(attempt_no)`, 0 for no attempts. */
  function MaxNumber(attempts: seq<Attempt>): nat {
    if attempts == [] then 0
    else
      var rest := MaxNumber(attempts[..|attempts| - 1]);
      var last := attempts[|attempts| - 1].number;
      if rest < last then last else rest
  }

  /** The attempts table after `UPDATE … WHERE attempt_no = max`. */
  function FinishLatest(attempts: seq<Attempt>, state: State, hash: Digest, finishedAt: Option<string>): (r: seq<Attempt>)
    ensures |r| == |attempts|
  {
    seq(|attempts|, i requires 0 <= i < |attempts| =>
      if attempts[i].number == MaxNumber(attempts)
      then attempts[i].(transport := state, receiptHash := hash, finishedAt := finishedAt)
      else attempts[i])
  }

  predicate HasOpenLetter(letters: seq<DeadLetter>) {
    exists i :: 0 <= i < |letters| && letters[i].status == Open
  }

  function ResolveOpen(letters: seq<DeadLetter>, now: string): (r: seq<DeadLetter>)
    ensures |r| == |letters|
  {
    seq(|letters|, i requires 0 <= i < |letters| =>
      if letters[i].status == Open
      then letters[i].(status := Resolved, resolvedAt := Some(now), version := letters[i].version + 1)
      else letters[i])
  }

  /** The dead letter of a failure, with the stock code and message where none is given. */
  function NewLetter(code: Option<string>, message: Option<string>, now: string): DeadLetter {
    DeadLetter(
      if code.Some? && code.value != "" then code.value else "local_operation_failed", Open,
      if message.Some? && message.value != "" then message.value else "本机操作失败",
      now, None, 1)
  }

  /** `letter` is added only when no dead letter of the operation is open. */
  function WithOpenLetter(letters: seq<DeadLetter>, letter: DeadLetter): seq<DeadLetter> {
    if HasOpenLetter(letters) then letters else letters + [letter]
  }

  function Resealed(m: Manifest, receipt: Receipt, now: string): Manifest {
    var hash := ReceiptDigest(m.payload, receipt);
    Manifest(m.payload, receipt, hash, hash, now)
  }

  function UpdatedRows(
    r: Rows, state: State, patch: Fields, code: Option<string>, message: Option<string>, now: string): Rows
  {
    Updated(r, UpdatedReceipt(r.manifest.receipt, state, patch, code, message, now), code, message, now)
  }

  /** The rows once `receipt` has been written and its state carried into the other tables. */
  function Updated(r: Rows, receipt: Receipt, code: Option<string>, message: Option<string>, now: string): Rows {
    var hash := ReceiptDigest(r.manifest.payload, receipt);
    var state := receipt.state;
    var status := CommandStatusOf(state);
    Rows(
      r.command.(status := status, settledAt := if status.Sending? then None else Some(now)),
      Resealed(r.manifest, receipt, now),
      r.idempotency.(resultHash := hash, status := IdempotencyStatusOf(state)),
      FinishLatest(r.attempts, state, hash, if state.Terminal() then Some(now) else None),
      r.outbox.(
        status := OutboxStatusOf(status), eventHash := hash, publishedAt := if status.Settled? then Some(now) else None),
      if status.CommandFailed? then WithOpenLetter(r.deadLetters, NewLetter(code, message, now)) else r.deadLetters,
      r.audit + [AuditEvent(r.command.commandType, Entered(state), hash, now)])
  }

  // ---------- retry ----------

  function RetriedReceipt(previous: Receipt, now: string): Receipt {
    Receipt(Queued, now, true, true,
            previous.entries + map["errorCode" := Null, "error" := Null, "retriedAt" := Text(now)])
  }

  function RetriedRows(r: Rows, now: string): Rows {
    Requeued(r, RetriedReceipt(r.manifest.receipt, now), now)
  }

  function Requeued(r: Rows, receipt: Receipt, now: string): Rows {
    var hash := ReceiptDigest(r.manifest.payload, receipt);
    Rows(
      r.command.(status := Sending, settledAt := None),
      Resealed(r.manifest, receipt, now),
      r.idempotency.(resultHash := hash, status := IdempotencyStatusOf(receipt.state)),
      r.attempts + [Attempt(MaxNumber(r.attempts) + 1, Queued, hash, now, None)],
      r.outbox.(status := Waiting, eventHash := hash, publishedAt := None),
      ResolveOpen(r.deadLetters, now),
      r.audit + [AuditEvent(r.command.commandType, RetryQueued, hash, now)])
  }

  // ---------- what the rows of one operation keep ----------

  function Latest(r: Rows): Attempt
    requires r.attempts != []
  {
    r.attempts[|r.attempts| - 1]
  }

  /** Attempts are numbered 1..n without gaps. */
  ghost predicate Numbered(attempts: seq<Attempt>) {
    attempts != [] && forall i :: 0 <= i < |attempts| ==> attempts[i].number == i + 1
  }

  /** Every table carries the digest of the current receipt, and the payload never changes. */
  ghost predicate Sealed(r: Rows) {
    var hash := ReceiptDigest(r.manifest.payload, r.manifest.receipt);
    && Numbered(r.attempts)
    && r.audit != []
    && r.manifest.contentHash == r.manifest.receiptHash == hash
    && r.idempotency.resultHash == hash
    && r.outbox.eventHash == hash
    && Latest(r).receiptHash == hash
    && r.audit[|r.audit| - 1].eventHash == hash
    && r.command.payloadHash == r.idempotency.payloadHash == PayloadDigest(r.manifest.payload)
    && r.idempotency.manifestId == r.command.manifestId
  }

  /** Command, idempotency record, latest attempt and outbox event say exactly what the receipt's
      state says, and every time they carry is the receipt's own. */
  ghost predicate Agreed(r: Rows)
    requires Sealed(r)
  {
    var state := r.manifest.receipt.state;
    var at := r.manifest.receipt.updatedAt;
    && r.command.status == CommandStatusOf(state)
    && r.command.settledAt == (if state.Polling() then None else Some(at))
    && r.idempotency.status == IdempotencyStatusOf(state)
    && Latest(r).transport == state
    && Latest(r).finishedAt == (if state.Terminal() then Some(at) else None)
    && r.outbox.status == OutboxStatusOf(CommandStatusOf(state))
    && r.outbox.publishedAt == (if state.Settling() then Some(at) else None)
  }

  function OpenLetters(letters: seq<DeadLetter>): nat {
    if letters == [] then 0
    else OpenLetters(letters[..|letters| - 1]) + if letters[|letters| - 1].status == Open then 1 else 0
  }

  /** Each finished-and-retried attempt left one dead letter behind, resolved; a failed command has
      one more, still open. */
  ghost predicate Accounted(r: Rows) {
    && Numbered(r.attempts)
    && (forall i :: 0 <= i < |r.attempts| - 1 ==>
          r.attempts[i].transport == FailedRetryable && r.attempts[i].finishedAt.Some?)
    && OpenLetters(r.deadLetters) == (if r.command.status == CommandFailed then 1 else 0)
    && |r.deadLetters| == |r.attempts| - 1 + (if r.command.status == CommandFailed then 1 else 0)
  }

  /** Only the `begin` that created the operation has written it. */
  predicate Untouched(r: Rows) {
    |r.audit| == 1
  }

  // ---------- helper lemmas ----------

  lemma {:induction false} MaxOfNumbered(attempts: seq<Attempt>)
    requires forall i :: 0 <= i < |attempts| ==> attempts[i].number == i + 1
    ensures MaxNumber(attempts) == |attempts|
  {
    if attempts != [] {
      MaxOfNumbered(attempts[..|attempts| - 1]);
    }
  }

  /** On numbered attempts the update reaches the last one and no other. */
  lemma FinishLatestIsLast(attempts: seq<Attempt>, state: State, hash: Digest, finishedAt: Option<string>)
    requires Numbered(attempts)
    ensures var last := attempts[|attempts| - 1];
            FinishLatest(attempts, state, hash, finishedAt)
            == attempts[..|attempts| - 1] + [last.(transport := state, receiptHash := hash, finishedAt := finishedAt)]
  {
    MaxOfNumbered(attempts);
  }

  lemma {:induction false} OpenLettersZero(letters: seq<DeadLetter>)
    ensures OpenLetters(letters) == 0 <==> !HasOpenLetter(letters)
  {
    if letters != [] {
      var init := letters[..|letters| - 1];
      OpenLettersZero(init);
      assert HasOpenLetter(init) ==> HasOpenLetter(letters) by {
        if i :| 0 <= i < |init| && init[i].status == Open { assert letters[i].status == Open; }
      }
      if i :| 0 <= i < |letters| && letters[i].status == Open {
        if i < |init| { assert init[i].status == Open; }
      }
      if letters[|letters| - 1].status == Open { assert HasOpenLetter(letters); }
    }
  }

  lemma ResolvedHasNoneOpen(letters: seq<DeadLetter>, now: string)
    ensures OpenLetters(ResolveOpen(letters, now)) == 0
  {
    OpenLettersZero(ResolveOpen(letters, now));
  }

  lemma OpenLettersAppend(letters: seq<DeadLetter>, letter: DeadLetter)
    ensures OpenLetters(letters + [letter]) == OpenLetters(letters) + if letter.status == Open then 1 else 0
  {
  }

  /** After `WithOpenLetter` exactly one more letter is open if none was, and none is lost. */
  lemma WithOpenLetterOpens(letters: seq<DeadLetter>, letter: DeadLetter)
    requires letter.status == Open
    ensures var r := WithOpenLetter(letters, letter);
            if OpenLetters(letters) == 0 then OpenLetters(r) == 1 && |r| == |letters| + 1 else r == letters
  {
    OpenLettersZero(letters);
    OpenLettersAppend(letters, letter);
  }

  // ---------- the calls on one operation ----------

  /** A fresh `begin` seals its rows; they agree with the receipt exactly when it starts in
      `processing`, and the failure count starts right whatever the state. */
  lemma BegunKeeps(
    operation: Id, command: Id, manifest: Id, context: Context, key: Key, commandType: string,
    aggregateType: string, aggregateId: string, payload: Fields, initial: Initial, now: string)
    ensures var r := BegunRows(operation, command, manifest, context, key, commandType, aggregateType, aggregateId,
                               payload, initial, now);
            && Sealed(r) && Accounted(r)
            && r.manifest.receipt.state == initial.state.GetOr(Processing)
            && (Agreed(r) <==> initial.state.GetOr(Processing) == Processing)
  {
  }

  /** Any update that takes effect makes the rows agree, even rows that did not agree before. */
  lemma UpdatedAgrees(
    r: Rows, state: State, patch: Fields, code: Option<string>, message: Option<string>, now: string)
    requires Sealed(r)
    ensures Sealed(UpdatedRows(r, state, patch, code, message, now))
    ensures Agreed(UpdatedRows(r, state, patch, code, message, now))
    ensures UpdatedRows(r, state, patch, code, message, now).manifest.receipt.state == state
  {
    var receipt := UpdatedReceipt(r.manifest.receipt, state, patch, code, message, now);
    FinishLatestIsLast(r.attempts, state, ReceiptDigest(r.manifest.payload, receipt),
                       if state.Terminal() then Some(now) else None);
  }

  /** An update keeps the failure count exactly when it does not take a failed command out of
      `failed`; only `retry` may do that. */
  lemma UpdatedAccounts(
    r: Rows, state: State, patch: Fields, code: Option<string>, message: Option<string>, now: string)
    requires Sealed(r) && Accounted(r)
    ensures Accounted(UpdatedRows(r, state, patch, code, message, now))
       <==> (r.command.status == CommandFailed ==> CommandStatusOf(state) == CommandFailed)
  {
    var receipt := UpdatedReceipt(r.manifest.receipt, state, patch, code, message, now);
    FinishLatestIsLast(r.attempts, state, ReceiptDigest(r.manifest.payload, receipt),
                       if state.Terminal() then Some(now) else None);
    WithOpenLetterOpens(r.deadLetters, NewLetter(code, message, now));
  }

  lemma RetriedAgrees(r: Rows, now: string)
    requires Sealed(r)
    ensures Sealed(RetriedRows(r, now)) && Agreed(RetriedRows(r, now))
    ensures RetriedRows(r, now).manifest.receipt.state == Queued
  {
    MaxOfNumbered(r.attempts);
  }

  /** A retry keeps the failure count exactly when the operation failed through `update`: then the
      last attempt is recorded as failed and its dead letter is there to be resolved. */
  lemma RetriedAccounts(r: Rows, now: string)
    requires Sealed(r) && Accounted(r)
    ensures Accounted(RetriedRows(r, now))
       <==> (r.command.status == CommandFailed && Latest(r).transport == FailedRetryable && Latest(r).finishedAt.Some?)
  {
    var r' := RetriedRows(r, now);
    MaxOfNumbered(r.attempts);
    ResolvedHasNoneOpen(r.deadLetters, now);
    assert r'.attempts[|r.attempts| - 1] == Latest(r);
  }

  // ---------- state by state ----------

  predicate Done(state: State) {
    state == Cancelled || state == Completed || state == Succeeded
  }

  predicate UnderWay(state: State) {
    state == Queued || state == Processing || state == Cancelling
  }

  predicate Final(state: State) {
    Done(state) || state == Blocked || state == Failed || state == FailedRetryable
  }

  /** What the four tables that follow the receipt say of an operation in `state` since `at`. */
  ghost predicate Filed(r: Rows, state: State, at: string)
    requires r.attempts != []
  {
    && (r.command.status == Settled <==> Done(state)) && (r.command.status == Sending <==> UnderWay(state))
    && (r.command.status == CommandFailed <==> !Done(state) && !UnderWay(state))
    && (r.outbox.status == Published <==> Done(state)) && (r.outbox.status == Waiting <==> UnderWay(state))
    && (r.outbox.status == Undeliverable <==> !Done(state) && !UnderWay(state))
    && (r.idempotency.status == Closed <==> Final(state))
    && r.command.settledAt == (if UnderWay(state) then None else Some(at))
    && r.outbox.publishedAt == (if Done(state) then Some(at) else None)
    && Latest(r).transport == state && Latest(r).finishedAt == (if Final(state) then Some(at) else None)
  }

  /** Every entry but those named is carried over. */
  predicate CarriesOver(before: Fields, after: Fields, except: set<string>) {
    forall k :: k in before && k !in except ==> k in after && after[k] == before[k]
  }

  predicate Says(entries: Fields, name: string, value: Json) {
    name in entries && entries[name] == value
  }

  predicate SameCommand(a: Command, b: Command) {
    b == a.(status := b.status, settledAt := b.settledAt)
  }

  /** An update that takes effect files the operation under exactly what its state means, state by
      state; the receipt says when, why and whether to poll or retry; earlier attempts stay. */
  lemma UpdateFilesByState(
    r: Rows, state: State, patch: Fields, code: Option<string>, message: Option<string>, now: string)
    requires Sealed(r)
    ensures var u := UpdatedRows(r, state, patch, code, message, now);
            && u.attempts != [] && Filed(u, state, now) && SameCommand(r.command, u.command)
            && |u.attempts| == |r.attempts| && u.attempts[..|r.attempts| - 1] == r.attempts[..|r.attempts| - 1]
            && u.audit == r.audit + [AuditEvent(r.command.commandType, Entered(state), u.manifest.contentHash, now)]
            && u.manifest.payload == r.manifest.payload && u.manifest.verifiedAt == now
    ensures var receipt := UpdatedRows(r, state, patch, code, message, now).manifest.receipt;
            && receipt.state == state && receipt.updatedAt == now
            && (receipt.retryable <==> state == Blocked || state == FailedRetryable) && (receipt.polling <==> UnderWay(state))
            && CarriesOver(patch, receipt.entries, {"errorCode", "error"})
            && CarriesOver(r.manifest.receipt.entries, receipt.entries, patch.Keys + {"errorCode", "error"})
            && Says(receipt.entries, "errorCode", if code.Some? then Text(code.value) else Null)
            && Says(receipt.entries, "error", if message.Some? then Text(message.value) else Null)
  {
    var receipt := UpdatedReceipt(r.manifest.receipt, state, patch, code, message, now);
    FinishLatestIsLast(r.attempts, state, ReceiptDigest(r.manifest.payload, receipt), if state.Terminal() then Some(now) else None);
  }

  /** The text given, or the stock one for none or an empty one. */
  predicate GivenOr(text: Option<string>, stock: string, said: string) {
    said == if text == None || text == Some("") then stock else text.value
  }

  /** A dead letter is opened exactly by an update that fails the command while none is open, and says
      why. */
  lemma FailureOpensLetter(
    r: Rows, state: State, patch: Fields, code: Option<string>, message: Option<string>, now: string)
    ensures var u := UpdatedRows(r, state, patch, code, message, now);
            var opens := !Done(state) && !UnderWay(state) && forall i :: 0 <= i < |r.deadLetters| ==> r.deadLetters[i].status != Open;
            if !opens then u.deadLetters == r.deadLetters
            else
              && |u.deadLetters| == |r.deadLetters| + 1 && u.deadLetters[..|r.deadLetters|] == r.deadLetters
              && var letter := u.deadLetters[|r.deadLetters|];
                 && letter.status == Open && letter.createdAt == now && letter.resolvedAt == None && letter.version == 1
                 && GivenOr(code, "local_operation_failed", letter.errorCode) && GivenOr(message, "本机操作失败", letter.message)
  {
  }

  /** A retry queues one more attempt, takes command, event and record back to waiting, resolves every
      open letter, and keeps the rest of the receipt and all that is past. */
  lemma RetryRequeues(r: Rows, now: string)
    requires Sealed(r)
    ensures var u := RetriedRows(r, now);
            && u.attempts == r.attempts + [Attempt(|r.attempts| + 1, Queued, u.manifest.contentHash, now, None)]
            && Filed(u, Queued, now) && SameCommand(r.command, u.command)
            && u.audit == r.audit + [AuditEvent(r.command.commandType, RetryQueued, u.manifest.contentHash, now)]
            && u.manifest.payload == r.manifest.payload && u.manifest.verifiedAt == now
    ensures var letters := RetriedRows(r, now).deadLetters;
            && |letters| == |r.deadLetters|
            && forall i :: 0 <= i < |letters| ==>
                 if r.deadLetters[i].status == Open
                 then letters[i].status == Resolved && letters[i].resolvedAt == Some(now)
                      && letters[i].version == r.deadLetters[i].version + 1
                      && letters[i].errorCode == r.deadLetters[i].errorCode && letters[i].message == r.deadLetters[i].message
                 else letters[i] == r.deadLetters[i]
    ensures var receipt := RetriedRows(r, now).manifest.receipt;
            && receipt.state == Queued && receipt.updatedAt == now && receipt.retryable && receipt.polling
            && CarriesOver(r.manifest.receipt.entries, receipt.entries, {"errorCode", "error", "retriedAt"})
            && Says(receipt.entries, "errorCode", Null) && Says(receipt.entries, "error", Null)
            && Says(receipt.entries, "retriedAt", Text(now))
  {
    MaxOfNumbered(r.attempts);
  }

  /** What a fresh `begin` writes, whatever state it begins in: everything waiting, nothing failed,
      and the caller's entries beside the four the call sets. */
  lemma BeginWaits(
    operation: Id, command: Id, manifest: Id, context: Context, key: Key, commandType: string,
    aggregateType: string, aggregateId: string, payload: Fields, initial: Initial, now: string)
    ensures var r := BegunRows(operation, command, manifest, context, key, commandType, aggregateType, aggregateId,
                               payload, initial, now);
            && r.command.id == command && r.command.manifestId == manifest && r.command.key == key
            && r.command.commandType == r.outbox.eventType == commandType
            && r.command.aggregateType == aggregateType && r.command.aggregateId == aggregateId
            && r.command.principal == context.principal && r.command.membership == context.membership
            && r.command.submittedAt == r.outbox.availableAt == now && r.deadLetters == []
            && r.attempts == [Attempt(1, Processing, r.manifest.contentHash, now, None)]
            && r.manifest.payload == payload && r.manifest.verifiedAt == now && Filed(r, Processing, now)
            && r.audit == [AuditEvent(commandType, Started, r.manifest.contentHash, now)]
    ensures var receipt := BegunRows(operation, command, manifest, context, key, commandType, aggregateType, aggregateId,
                                     payload, initial, now).manifest.receipt;
            && receipt.updatedAt == now
            && (receipt.state == match initial.state case None => Processing case Some(given) => given)
            && (receipt.retryable == match initial.retryable case None => true case Some(given) => given)
            && (receipt.polling == match initial.polling case None => true case Some(given) => given)
            && CarriesOver(initial.entries, receipt.entries, {"commandId", "operationId", "sandboxId", "createdAt"})
            && Says(receipt.entries, "commandId", Number(command)) && Says(receipt.entries, "operationId", Number(operation))
            && Says(receipt.entries, "sandboxId", Text(context.sandbox)) && Says(receipt.entries, "createdAt", Text(now))
  {
  }

  /** A repeated `begin` answers the stored receipt, marked as a replay. */
  lemma ReplayKeepsReceipt(operation: Id, command: Id, receipt: Receipt)
    ensures var answer := Replayed(operation, command, receipt);
            && answer == receipt.(entries := answer.entries)
            && CarriesOver(receipt.entries, answer.entries, {"commandId", "operationId", "idempotentReplay"})
            && Says(answer.entries, "commandId", Number(command)) && Says(answer.entries, "operationId", Number(operation))
            && Says(answer.entries, "idempotentReplay", Bool(true))
  {
  }

  /** The outbox event goes with its command, and is published when it has a time of publication. */
  ghost predicate OutboxTold(r: Rows) {
    && (r.outbox.status == Published <==> r.outbox.publishedAt.Some?) && (r.outbox.status == Published <==> r.command.status == Settled)
    && (r.outbox.status == Undeliverable <==> r.command.status == CommandFailed)
  }
}
