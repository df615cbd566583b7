/** What every run of calls on a recording keeps, and when its minutes can be published. */
module MinutesGuarantees {
  import opened Options
  import opened Texts
  import opened MeetingMinutes

  // ---------- attempts are numbered ----------

  function CountOf(attempts: seq<Attempt>, p: Processor): nat {
    if attempts == [] then 0 else CountOf(attempts[..|attempts| - 1], p) + if attempts[|attempts| - 1].processor == p then 1 else 0
  }

  /** The attempts of each processor are 1, 2, 3 ... */
  predicate Numbered(attempts: seq<Attempt>) {
    forall i :: 0 <= i < |attempts| ==> attempts[i].number == CountOf(attempts[..i], attempts[i].processor) + 1
  }

  lemma {:induction false} LatestIsHighest(attempts: seq<Attempt>, p: Processor)
    requires Numbered(attempts)
    ensures NextNumber(attempts, p) == CountOf(attempts, p) + 1
    ensures LatestAttempt(attempts, p).Some? <==> CountOf(attempts, p) > 0
  {
    if attempts != [] {
      var front := attempts[..|attempts| - 1];
      assert forall i :: 0 <= i < |front| ==> front[..i] == attempts[..i];
      LatestIsHighest(front, p);
    }
  }

  lemma OpenedNumbered(attempts: seq<Attempt>, p: Processor)
    requires Numbered(attempts)
    ensures Numbered(Opened(attempts, p))
  {
    LatestIsHighest(attempts, p);
    assert forall i :: 0 <= i <= |attempts| ==> Opened(attempts, p)[..i] == attempts[..i];
  }

  lemma ClosedNumbered(attempts: seq<Attempt>, status: Status)
    requires Numbered(attempts) && attempts != []
    ensures Numbered(Closed(attempts, status))
  {
  }

  lemma ACallNumbers(attempts: seq<Attempt>, p: Processor, status: Status)
    requires Numbered(attempts)
    ensures Numbered(Opened(attempts, p)) && Numbered(Closed(Opened(attempts, p), status))
  {
    OpenedNumbered(attempts, p);
    ClosedNumbered(Opened(attempts, p), status);
  }

  /** What a call does to the attempts: nothing, one opened, or one opened and closed. */
  predicate CallAttempts(before: seq<Attempt>, after: seq<Attempt>, p: Processor) {
    || after == before
    || after == Opened(before, p)
    || (|after| == |before| + 1 && after == Closed(Opened(before, p), after[|before|].status))
  }

  lemma CallNumbers(before: seq<Attempt>, after: seq<Attempt>, p: Processor)
    requires Numbered(before) && CallAttempts(before, after, p)
    ensures Numbered(after)
  {
    if after != before { ACallNumbers(before, p, after[|before|].status); }
  }

  lemma ClosedIsCall(before: seq<Attempt>, p: Processor, status: Status)
    ensures CallAttempts(before, Closed(Opened(before, p), status), p)
  {
  }

  lemma TranscribeAttempts(space: char -> bool, r: Recording, force: bool, heard: Recognised)
    ensures CallAttempts(r.attempts, Transcribe(space, r, force, heard).0.attempts, Transcription)
  {
  }

  lemma DraftAttempts(space: char -> bool, r: Recording, call: DraftCall)
    ensures CallAttempts(r.attempts, CreateDraft(space, r, call).0.attempts, Minutes)
  {
    ClosedIsCall(r.attempts, Minutes, Ready);
    ClosedIsCall(r.attempts, Minutes, Blocked);
    ClosedIsCall(r.attempts, Minutes, FailedRetryable);
  }

  // ---------- the invariant ----------

  /** Transcriptions are 1..n, each superseding the one before, and the recording points at n. */
  predicate TranscriptionChain(rows: seq<TranscriptionRow>, current: Option<Id>) {
    && (forall i :: 0 <= i < |rows| ==> rows[i].version == i + 1 && rows[i].id == TranscriptionId(i + 1, rows[i].hash))
    && (forall i :: 0 <= i < |rows| ==> rows[i].supersedes == if i == 0 then None else Some(rows[i - 1].id))
    && (forall i :: 0 <= i < |rows| ==> rows[i].manifest == ManifestId(rows[i].id))
    && current == if rows == [] then None else Some(rows[|rows| - 1].id)
  }

  /** Minutes versions are 1..m; a published one repeats the content of the one before it. */
  predicate MinutesVersions(rows: seq<MinutesRow>) {
    && (forall i :: 0 <= i < |rows| ==> rows[i].version == i + 1)
    && (forall i :: 0 <= i < |rows| && rows[i].state == Draft ==> rows[i].id == MinutesId(i + 1) && rows[i].manifest == ManifestId(rows[i].id))
    && (forall i :: 0 <= i < |rows| && rows[i].state == Published ==>
          rows[i].id.PublishedId? && i > 0 && rows[i].manifest == rows[i - 1].manifest && rows[i].hash == rows[i - 1].hash)
    && (forall i, j :: 0 <= i < j < |rows| ==> rows[i].id != rows[j].id)
  }

  /** The document names the last version and its publication state. */
  predicate MinutesChain(rows: seq<MinutesRow>, document: Option<Document>) {
    MinutesVersions(rows) && document == if rows == [] then None else Some(Document(|rows|, rows[|rows| - 1].state))
  }

  predicate HoldsTranscript(manifests: map<Id, Manifest>, row: TranscriptionRow) {
    row.manifest in manifests && manifests[row.manifest] == Manifest(TranscriptFile(row.version), row.hash, [])
  }

  predicate HoldsMinutes(manifests: map<Id, Manifest>, row: MinutesRow) {
    row.manifest in manifests && manifests[row.manifest].hash == row.hash && manifests[row.manifest].path.MinutesFile?
  }

  predicate Stored(r: Recording) {
    && (forall i :: 0 <= i < |r.transcriptions| ==> HoldsTranscript(r.manifests, r.transcriptions[i]))
    && (forall i :: 0 <= i < |r.minutes| ==> HoldsMinutes(r.manifests, r.minutes[i]))
  }

  predicate IsTranscription(rows: seq<TranscriptionRow>, id: Id) {
    id.TranscriptionId? && 1 <= id.version <= |rows| && rows[id.version - 1].id == id
  }

  /** There is evidence, and all of it points at one transcription. */
  predicate AllCite(evidence: map<Id, Evidence>, ids: seq<Id>, source: Id) {
    ids != [] && forall i :: 0 <= i < |ids| ==> ids[i] in evidence && evidence[ids[i]].source == source
  }

  /** The transcription that the evidence of a manifest points at. */
  function AnchorOf(r: Recording, manifest: Id): Option<Id> {
    if manifest in r.manifests && r.manifests[manifest].evidence != [] && r.manifests[manifest].evidence[0] in r.evidence then
      Some(r.evidence[r.manifests[manifest].evidence[0]].source)
    else None
  }

  predicate Anchored(r: Recording, manifest: Id) {
    var anchor := AnchorOf(r, manifest);
    anchor.Some? && AllCite(r.evidence, r.manifests[manifest].evidence, anchor.value) && IsTranscription(r.transcriptions, anchor.value)
  }

  predicate Cited(r: Recording) {
    forall i :: 0 <= i < |r.minutes| ==> Anchored(r, r.minutes[i].manifest)
  }

  predicate KnownManifest(r: Recording, id: Id) {
    id.ManifestId? && ((id.of.TranscriptionId? && id.of.version <= |r.transcriptions|) || (id.of.MinutesId? && id.of.version <= |r.minutes|))
  }

  predicate KnownEvidence(r: Recording, id: Id) {
    id.EvidenceId? && id.minutes.MinutesId? && id.minutes.version <= |r.minutes|
  }

  /** No id of a later version is taken. */
  predicate NothingAhead(r: Recording) {
    && (forall id :: id in r.manifests ==> KnownManifest(r, id))
    && (forall id :: id in r.evidence ==> KnownEvidence(r, id))
  }

  /** The books of a recording: everything but its attempts and files. */
  predicate BooksSound(r: Recording) {
    && TranscriptionChain(r.transcriptions, r.current) && MinutesChain(r.minutes, r.document)
    && Stored(r) && Cited(r) && NothingAhead(r)
  }

  predicate Sound(r: Recording) {
    Numbered(r.attempts) && BooksSound(r)
  }

  predicate SameBooks(a: Recording, b: Recording) {
    && a.transcriptions == b.transcriptions && a.current == b.current && a.document == b.document
    && a.minutes == b.minutes && a.evidence == b.evidence && a.manifests == b.manifests
  }

  lemma AnchorOfSameBooks(a: Recording, b: Recording, manifest: Id)
    requires SameBooks(a, b)
    ensures AnchorOf(a, manifest) == AnchorOf(b, manifest) && (Anchored(a, manifest) <==> Anchored(b, manifest))
  {
  }

  lemma SameBooksSound(a: Recording, b: Recording)
    requires SameBooks(a, b) && BooksSound(a)
    ensures BooksSound(b)
  {
    forall i | 0 <= i < |b.minutes|
      ensures Anchored(b, b.minutes[i].manifest)
    {
      AnchorOfSameBooks(a, b, b.minutes[i].manifest);
    }
    forall id | id in b.manifests ensures KnownManifest(b, id) { assert KnownManifest(a, id); }
    forall id | id in b.evidence ensures KnownEvidence(b, id) { assert KnownEvidence(a, id); }
  }

  // ---------- what each closing transaction does to it ----------

  lemma {:induction false} LatestIsLast(rows: seq<TranscriptionRow>)
    requires forall i :: 0 <= i < |rows| ==> rows[i].version == i + 1
    ensures LatestTranscription(rows) == if rows == [] then None else Some(rows[|rows| - 1])
  {
    if rows != [] { LatestIsLast(rows[..|rows| - 1]); }
  }

  /** In a sound recording the next transcription is always stored: its id is free. */
  lemma TranscriptionAlwaysStores(r: Recording, text: string)
    requires BooksSound(r)
    ensures StoreTranscription(r, text) == Some(WithTranscription(r, text))
  {
  }

  lemma AnchoredThrough(r: Recording, after: Recording, manifest: Id)
    requires Anchored(r, manifest)
    requires manifest in after.manifests && after.manifests[manifest] == r.manifests[manifest]
    requires forall id :: id in r.evidence ==> id in after.evidence && after.evidence[id] == r.evidence[id]
    requires r.transcriptions <= after.transcriptions
    ensures Anchored(after, manifest) && AnchorOf(after, manifest) == AnchorOf(r, manifest)
  {
  }

  lemma TranscriptionExtendsChain(r: Recording, text: string)
    requires TranscriptionChain(r.transcriptions, r.current)
    ensures TranscriptionChain(WithTranscription(r, text).transcriptions, WithTranscription(r, text).current)
    ensures NextTranscription(r, text).version == |r.transcriptions| + 1
  {
    LatestIsLast(r.transcriptions);
  }

  lemma TranscriptionStored(r: Recording, text: string)
    requires TranscriptionChain(r.transcriptions, r.current) && Stored(r) && NothingAhead(r)
    ensures Stored(WithTranscription(r, text)) && NextTranscription(r, text).manifest !in r.manifests
  {
  }

  lemma TranscriptionCited(r: Recording, text: string)
    requires Cited(r) && NextTranscription(r, text).manifest !in r.manifests
    ensures Cited(WithTranscription(r, text))
    ensures forall i :: 0 <= i < |r.minutes| ==>
              AnchorOf(WithTranscription(r, text), r.minutes[i].manifest) == AnchorOf(r, r.minutes[i].manifest)
  {
  }

  lemma TranscriptionKeepsBooks(r: Recording, text: string)
    requires BooksSound(r)
    ensures BooksSound(WithTranscription(r, text))
    ensures forall i :: 0 <= i < |r.minutes| ==>
              AnchorOf(WithTranscription(r, text), r.minutes[i].manifest) == AnchorOf(r, r.minutes[i].manifest)
  {
    var after := WithTranscription(r, text);
    TranscriptionExtendsChain(r, text);
    TranscriptionStored(r, text);
    TranscriptionCited(r, text);
    forall id | id in after.manifests ensures KnownManifest(after, id) {
      if id in r.manifests { assert KnownManifest(r, id); }
    }
    forall id | id in after.evidence ensures KnownEvidence(after, id) { assert KnownEvidence(r, id); }
  }

  lemma NextIsOneMore(r: Recording)
    requires MinutesChain(r.minutes, r.document)
    ensures NextMinutes(r) == |r.minutes| + 1
    ensures !HasMinutes(r.minutes, MinutesId(NextMinutes(r)))
  {
  }

  /** In a sound recording a draft is stored exactly when its citations are distinct. */
  lemma DraftStoresIff(r: Recording, body: string, citations: seq<Citation>, source: Id)
    requires BooksSound(r)
    ensures StoreDraft(r, body, citations, source) == if Distinct(citations) then Some(WithDraft(r, body, citations, source)) else None
  {
    NextIsOneMore(r);
    DraftIdsFree(r, citations, source);
  }

  lemma DraftIsAnchored(r: Recording, body: string, citations: seq<Citation>, source: Id)
    requires citations != [] && IsTranscription(r.transcriptions, source)
    ensures var after, id := WithDraft(r, body, citations, source), ManifestId(MinutesId(NextMinutes(r)));
            Anchored(after, id) && AnchorOf(after, id) == Some(source)
  {
    EvidenceRowsHold(MinutesId(NextMinutes(r)), citations, source);
  }

  lemma DraftIdsFree(r: Recording, citations: seq<Citation>, source: Id)
    requires NothingAhead(r)
    ensures ManifestId(MinutesId(|r.minutes| + 1)) !in r.manifests
    ensures EvidenceRows(MinutesId(|r.minutes| + 1), citations, source).Keys !! r.evidence.Keys
  {
    var id := MinutesId(|r.minutes| + 1);
    EvidenceRowsHold(id, citations, source);
    assert !KnownManifest(r, ManifestId(id));
    forall e | e in EvidenceRows(id, citations, source) ensures e !in r.evidence { assert !KnownEvidence(r, e); }
  }

  lemma DraftExtendsChain(r: Recording, body: string, citations: seq<Citation>, source: Id)
    requires MinutesChain(r.minutes, r.document)
    ensures MinutesChain(WithDraft(r, body, citations, source).minutes, WithDraft(r, body, citations, source).document)
  {
  }

  lemma DraftStored(r: Recording, body: string, citations: seq<Citation>, source: Id)
    requires MinutesChain(r.minutes, r.document) && Stored(r) && NothingAhead(r)
    ensures Stored(WithDraft(r, body, citations, source))
  {
  }

  lemma DraftKeepsEvidence(r: Recording, body: string, citations: seq<Citation>, source: Id, id: Id)
    requires MinutesChain(r.minutes, r.document) && NothingAhead(r) && id in r.evidence
    ensures var after := WithDraft(r, body, citations, source);
            id in after.evidence && after.evidence[id] == r.evidence[id]
  {
    NextIsOneMore(r);
    DraftIdsFree(r, citations, source);
  }

  lemma DraftCited(r: Recording, body: string, citations: seq<Citation>, source: Id)
    requires MinutesChain(r.minutes, r.document) && NothingAhead(r) && Cited(r)
    requires citations != [] && IsTranscription(r.transcriptions, source)
    ensures Cited(WithDraft(r, body, citations, source))
  {
    NextIsOneMore(r);
    var after := WithDraft(r, body, citations, source);
    DraftIdsFree(r, citations, source);
    DraftIsAnchored(r, body, citations, source);
    forall id | id in r.evidence ensures id in after.evidence && after.evidence[id] == r.evidence[id] {
      DraftKeepsEvidence(r, body, citations, source, id);
    }
    forall i | 0 <= i < |after.minutes|
      ensures Anchored(after, after.minutes[i].manifest)
    {
      if i < |r.minutes| {
        assert Anchored(r, r.minutes[i].manifest);
        AnchoredThrough(r, after, r.minutes[i].manifest);
      }
    }
  }

  lemma DraftKeepsBooks(r: Recording, body: string, citations: seq<Citation>, source: Id)
    requires BooksSound(r) && citations != [] && IsTranscription(r.transcriptions, source)
    ensures BooksSound(WithDraft(r, body, citations, source))
  {
    NextIsOneMore(r);
    var after := WithDraft(r, body, citations, source);
    EvidenceRowsHold(MinutesId(NextMinutes(r)), citations, source);
    DraftExtendsChain(r, body, citations, source);
    DraftStored(r, body, citations, source);
    DraftCited(r, body, citations, source);
    forall id | id in after.manifests ensures KnownManifest(after, id) {
      if id in r.manifests { assert KnownManifest(r, id); }
    }
    forall id | id in after.evidence ensures KnownEvidence(after, id) {
      if id in r.evidence { assert KnownEvidence(r, id); }
    }
  }

  lemma {:induction false} FindsCurrentMinutes(rows: seq<MinutesRow>, version: int)
    requires forall i :: 0 <= i < |rows| ==> rows[i].version == i + 1
    ensures FindMinutes(rows, version) == if 1 <= version <= |rows| then Some(rows[version - 1]) else None
  {
    if rows != [] { FindsCurrentMinutes(rows[..|rows| - 1], version); }
  }

  lemma {:induction false} FindsTranscription(rows: seq<TranscriptionRow>, i: nat)
    requires i < |rows| && forall j, k :: 0 <= j < k < |rows| ==> rows[j].id != rows[k].id
    ensures FindTranscription(rows, rows[i].id) == Some(rows[i])
  {
    if i < |rows| - 1 { FindsTranscription(rows[..|rows| - 1], i); }
  }

  /** A recorded publication is one more row with the content of the last one. */
  lemma PublicationAppends(r: Recording, cloudVersion: int)
    requires MinutesChain(r.minutes, r.document)
    ensures var (after, outcome) := RecordPublication(r, cloudVersion);
            if outcome == Recorded then
              && r.minutes != []
              && after == r.(document := Some(Document(|r.minutes| + 1, Published)), minutes := after.minutes)
              && var last := r.minutes[|r.minutes| - 1];
                 after.minutes == r.minutes + [MinutesRow(PublishedId(cloudVersion), |r.minutes| + 1, last.hash, last.manifest, Published)]
            else after == r
    ensures RecordPublication(r, cloudVersion).1 == Recorded ==> !HasMinutes(r.minutes, PublishedId(cloudVersion))
  {
  }

  lemma PublicationExtendsChain(rows: seq<MinutesRow>, cloudVersion: int)
    requires MinutesVersions(rows) && rows != [] && !HasMinutes(rows, PublishedId(cloudVersion))
    ensures var last := rows[|rows| - 1];
            MinutesVersions(rows + [MinutesRow(PublishedId(cloudVersion), |rows| + 1, last.hash, last.manifest, Published)])
  {
  }

  lemma PublicationStored(r: Recording, after: Recording)
    requires Stored(r) && Cited(r) && r.minutes != [] && |after.minutes| == |r.minutes| + 1 && after.minutes[..|r.minutes|] == r.minutes
    requires after == r.(document := after.document, minutes := after.minutes)
    requires after.minutes[|r.minutes|].manifest == r.minutes[|r.minutes| - 1].manifest
    requires after.minutes[|r.minutes|].hash == r.minutes[|r.minutes| - 1].hash
    ensures Stored(after) && Cited(after)
  {
  }

  lemma PublicationKeepsBooks(r: Recording, cloudVersion: int)
    requires BooksSound(r)
    ensures BooksSound(RecordPublication(r, cloudVersion).0)
  {
    var (after, outcome) := RecordPublication(r, cloudVersion);
    PublicationAppends(r, cloudVersion);
    if outcome == Recorded {
      PublicationExtendsChain(r.minutes, cloudVersion);
      PublicationStored(r, after);
      forall id | id in after.manifests ensures KnownManifest(after, id) { assert KnownManifest(r, id); }
      forall id | id in after.evidence ensures KnownEvidence(after, id) { assert KnownEvidence(r, id); }
    }
  }

  // ---------- runs ----------

  /** How a transcription call leaves the books: as they were, or with the text it heard. */
  lemma TranscribeBooks(space: char -> bool, r: Recording, force: bool, heard: Recognised)
    requires BooksSound(r)
    ensures var (after, outcome) := Transcribe(space, r, force, heard);
            if outcome == Ended(Ready) then
                 heard.Heard? && after == WithTranscription(r, Strip(space, heard.text)).(attempts := after.attempts)
               else after == r.(attempts := after.attempts)
  {
    if heard.Heard? { TranscriptionAlwaysStores(r, Strip(space, heard.text)); }
  }

  function DraftSource(space: char -> bool, r: Recording): Id
    requires ReadTranscript(space, r).Some?
  {
    CurrentTranscription(r).value.id
  }

  function DraftedBooks(space: char -> bool, r: Recording, call: DraftCall): Recording
    requires Source(space, call).Wrote? && ReadTranscript(space, r).Some?
  {
    WithDraft(r, DraftBody(space, call), DraftCitations(space, call, ReadTranscript(space, r).value), DraftSource(space, r))
  }

  lemma ConcludedBooks(space: char -> bool, r: Recording, call: DraftCall, transcript: string, source: Id)
    requires BooksSound(r) && Source(space, call).Wrote?
    ensures var (after, outcome) := ConcludeDraft(space, r, call, transcript, source);
            var body, citations := DraftBody(space, call), DraftCitations(space, call, transcript);
            if body != "" && AllUsable(citations) && Distinct(citations) then
              outcome == Ended(Ready) && after == WithDraft(r, body, citations, source).(attempts := after.attempts)
            else outcome == Raised && after == r.(attempts := after.attempts, files := after.files)
  {
    DraftStoresIff(r, DraftBody(space, call), DraftCitations(space, call, transcript), source);
  }

  /** How a draft call leaves the books: as they were, or with the draft it describes. */
  lemma {:induction false} DraftBooks(space: char -> bool, r: Recording, call: DraftCall)
    requires BooksSound(r)
    ensures var (after, outcome) := CreateDraft(space, r, call);
            if outcome == Ended(Ready) then
                 && Source(space, call).Wrote? && ReadTranscript(space, r).Some?
                 && after == DraftedBooks(space, r, call).(attempts := after.attempts)
               else after == r.(attempts := after.attempts, files := after.files)
  {
    if ReadTranscript(space, r).Some? && Source(space, call).Wrote? {
      ConcludedBooks(space, r, call, ReadTranscript(space, r).value, DraftSource(space, r));
    }
  }

  lemma DraftSourceIsLast(space: char -> bool, r: Recording)
    requires TranscriptionChain(r.transcriptions, r.current) && ReadTranscript(space, r).Some?
    ensures r.transcriptions != [] && Some(DraftSource(space, r)) == r.current && IsTranscription(r.transcriptions, DraftSource(space, r))
  {
  }

  lemma TranscribeKeepsSound(space: char -> bool, r: Recording, force: bool, heard: Recognised)
    requires Sound(r)
    ensures Sound(Transcribe(space, r, force, heard).0)
  {
    var (after, outcome) := Transcribe(space, r, force, heard);
    TranscribeBooks(space, r, force, heard);
    TranscribeAttempts(space, r, force, heard);
    CallNumbers(r.attempts, after.attempts, Transcription);
    if outcome == Ended(Ready) {
      TranscriptionKeepsBooks(r, Strip(space, heard.text));
      SameBooksSound(WithTranscription(r, Strip(space, heard.text)), after);
    } else {
      SameBooksSound(r, after);
    }
  }

  lemma DraftCallKeepsSound(space: char -> bool, r: Recording, call: DraftCall)
    requires Sound(r)
    ensures Sound(CreateDraft(space, r, call).0)
  {
    var (after, outcome) := CreateDraft(space, r, call);
    DraftBooks(space, r, call);
    DraftAttempts(space, r, call);
    CallNumbers(r.attempts, after.attempts, Minutes);
    if outcome == Ended(Ready) {
      DraftSourceIsLast(space, r);
      DraftKeepsBooks(r, DraftBody(space, call), DraftCitations(space, call, ReadTranscript(space, r).value), DraftSource(space, r));
      SameBooksSound(DraftedBooks(space, r, call), after);
    } else {
      SameBooksSound(r, after);
    }
  }

  /** Every call, and any change to the managed files, keeps the version chains sound. */
  lemma {:induction false} StepKeepsSound(space: char -> bool, r: Recording, op: Op)
    requires Sound(r)
    ensures Sound(Step(space, r, op).0)
  {
    match op {
      case TranscribeOp(force, heard) => TranscribeKeepsSound(space, r, force, heard);
      case DraftOp(call) => DraftCallKeepsSound(space, r, call);
      case PublishOp(cloudVersion) => PublicationKeepsBooks(r, cloudVersion);
      case Overwrite(_, _) => SameBooksSound(r, Step(space, r, op).0);
      case Delete(_) => SameBooksSound(r, Step(space, r, op).0);
    }
  }

  /** Version chains over all sequential runs of a registered recording. */
  lemma {:induction false} RunIsSound(space: char -> bool, ops: seq<Op>)
    ensures Sound(Run(space, REGISTERED, ops))
  {
    if ops != [] {
      RunIsSound(space, ops[..|ops| - 1]);
      StepKeepsSound(space, Run(space, REGISTERED, ops[..|ops| - 1]), ops[|ops| - 1]);
    }
  }

  // ---------- failures ----------

  /** A failed, blocked, refused or crashed call leaves every chain unchanged: only a call that ends
      `ready` or records a publication adds anything. */
  lemma FailuresKeepChains(space: char -> bool, r: Recording, op: Op)
    requires Sound(r) && Step(space, r, op).1 != Ended(Ready) && Step(space, r, op).1 != Recorded
    ensures SameBooks(Step(space, r, op).0, r)
  {
    match op {
      case TranscribeOp(force, heard) => TranscribeBooks(space, r, force, heard);
      case DraftOp(call) => DraftBooks(space, r, call);
      case PublishOp(cloudVersion) => PublicationAppends(r, cloudVersion);
      case Overwrite(_, _) =>
      case Delete(_) =>
    }
  }

  /** Exactly when a draft call stores a draft. */
  lemma {:induction false} DraftReadyIff(space: char -> bool, r: Recording, call: DraftCall)
    requires BooksSound(r)
    ensures CreateDraft(space, r, call).1 == Ended(Ready)
            <==> MayDraft(r, call) && ReadTranscript(space, r).Some? && Source(space, call).Wrote? && DraftBody(space, call) != ""
                 && var citations := DraftCitations(space, call, ReadTranscript(space, r).value);
                    Distinct(citations) && AllUsable(citations)
  {
    if ReadTranscript(space, r).Some? && Source(space, call).Wrote? {
      ConcludedBooks(space, r, call, ReadTranscript(space, r).value, DraftSource(space, r));
    }
  }

  // ---------- publication is anchored ----------

  /** A payload carries evidence, all of it on the recording's current transcription, and a body with
      the hash of the current minutes version. */
  lemma PayloadIsAnchored(space: char -> bool, r: Recording)
    requires Sound(r) && PublicationPayload(space, r).Publishable?
    ensures var payload := PublicationPayload(space, r);
            && r.transcriptions != [] && r.minutes != []
            && Some(payload.transcription) == r.current
            && payload.evidence != [] && (forall i :: 0 <= i < |payload.evidence| ==> payload.evidence[i].source == payload.transcription)
            && payload.hash == r.minutes[|r.minutes| - 1].hash == Hash(payload.body)
            && AnchorOf(r, r.minutes[|r.minutes| - 1].manifest) == Some(payload.transcription)
  {
  }

  /** Minutes whose evidence points at an earlier transcription. */
  predicate Outdated(r: Recording) {
    && r.minutes != [] ==>
         var anchor := AnchorOf(r, r.minutes[|r.minutes| - 1].manifest);
         anchor.Some? && anchor.value.TranscriptionId? && anchor.value.version < |r.transcriptions|
  }

  lemma OutdatedIsUnpublishable(space: char -> bool, r: Recording)
    requires Sound(r) && Outdated(r)
    ensures !PublicationPayload(space, r).Publishable?
  {
  }

  predicate StoresDraft(space: char -> bool, r: Recording, op: Op) {
    op.DraftOp? && Step(space, r, op).1 == Ended(Ready)
  }

  lemma TranscribeStaysOutdated(space: char -> bool, r: Recording, force: bool, heard: Recognised)
    requires BooksSound(r) && Outdated(r)
    ensures Outdated(Transcribe(space, r, force, heard).0)
  {
    var (after, outcome) := Transcribe(space, r, force, heard);
    TranscribeBooks(space, r, force, heard);
    if outcome == Ended(Ready) {
      NewTranscriptionOutdates(r, Strip(space, heard.text));
      SameBooksOutdated(WithTranscription(r, Strip(space, heard.text)), after);
    } else {
      SameBooksOutdated(r, after);
    }
  }

  lemma SameBooksOutdated(a: Recording, b: Recording)
    requires SameBooks(a, b) && Outdated(a)
    ensures Outdated(b)
  {
  }

  lemma PublishStaysOutdated(r: Recording, cloudVersion: int)
    requires BooksSound(r) && Outdated(r)
    ensures Outdated(RecordPublication(r, cloudVersion).0)
  {
  }

  lemma OnlyDraftsCatchUp(space: char -> bool, r: Recording, op: Op)
    requires BooksSound(r) && Outdated(r) && !StoresDraft(space, r, op)
    ensures Outdated(Step(space, r, op).0)
  {
    match op {
      case TranscribeOp(force, heard) => TranscribeStaysOutdated(space, r, force, heard);
      case DraftOp(call) =>
        DraftBooks(space, r, call);
        SameBooksOutdated(r, Step(space, r, op).0);
      case PublishOp(cloudVersion) => PublishStaysOutdated(r, cloudVersion);
      case Overwrite(_, _) => SameBooksOutdated(r, Step(space, r, op).0);
      case Delete(_) => SameBooksOutdated(r, Step(space, r, op).0);
    }
  }

  predicate NoDraftStored(space: char -> bool, r: Recording, ops: seq<Op>) {
    ops == []
    || (NoDraftStored(space, r, ops[..|ops| - 1]) && !StoresDraft(space, Run(space, r, ops[..|ops| - 1]), ops[|ops| - 1]))
  }

  lemma {:induction false} StaysOutdated(space: char -> bool, r: Recording, ops: seq<Op>)
    requires Sound(r) && Outdated(r) && NoDraftStored(space, r, ops)
    ensures Sound(Run(space, r, ops)) && Outdated(Run(space, r, ops))
  {
    if ops != [] {
      StaysOutdated(space, r, ops[..|ops| - 1]);
      StepKeepsSound(space, Run(space, r, ops[..|ops| - 1]), ops[|ops| - 1]);
      OnlyDraftsCatchUp(space, Run(space, r, ops[..|ops| - 1]), ops[|ops| - 1]);
    }
  }

  /** Publication anchoring: after a new transcription is stored, no earlier minutes can be published,
      through any calls and any changes to the files, until minutes are drafted again. */
  lemma RetranscriptionWithdrawsMinutes(space: char -> bool, r: Recording, force: bool, heard: Recognised, ops: seq<Op>)
    requires Sound(r) && Transcribe(space, r, force, heard).1 == Ended(Ready)
    requires NoDraftStored(space, Transcribe(space, r, force, heard).0, ops)
    ensures !PublicationPayload(space, Run(space, Transcribe(space, r, force, heard).0, ops)).Publishable?
  {
    var after := Transcribe(space, r, force, heard).0;
    TranscribeKeepsSound(space, r, force, heard);
    TranscribeBooks(space, r, force, heard);
    NewTranscriptionOutdates(r, Strip(space, heard.text));
    StaysOutdated(space, after, ops);
    OutdatedIsUnpublishable(space, Run(space, after, ops));
  }

  lemma NewTranscriptionOutdates(r: Recording, text: string)
    requires BooksSound(r)
    ensures Outdated(WithTranscription(r, text))
  {
  }

  /** A draft just stored can be published exactly when its text has no carriage return: the file is
      read back in text mode, and the hash was taken before. */
  lemma FreshDraftPublishableIff(space: char -> bool, r: Recording, call: DraftCall)
    requires Sound(r) && CreateDraft(space, r, call).1 == Ended(Ready)
    ensures Source(space, call).Wrote?
    ensures PublicationPayload(space, CreateDraft(space, r, call).0).Publishable? <==> '\r' !in DraftBody(space, call)
  {
    var after := CreateDraft(space, r, call).0;
    DraftReadyIff(space, r, call);
    DraftBooks(space, r, call);
    var body := DraftBody(space, call);
    DraftCallKeepsSound(space, r, call);
    FreshDraftIsCurrent(space, r, call);
    StripIsTrimmed(space, Source(space, call).body);
    ReadBackIff(space, body);
  }

  /** With a sound and readable current version, publishing comes down to reading its file back. */
  lemma PublishableIfReadsBack(space: char -> bool, r: Recording)
    requires BooksSound(r) && r.minutes != [] && r.current.Some?
    requires AnchorOf(r, r.minutes[|r.minutes| - 1].manifest) == r.current
    ensures var row := r.minutes[|r.minutes| - 1];
            row.manifest in r.manifests
            && (PublicationPayload(space, r).Publishable?
                <==> var path := r.manifests[row.manifest].path;
                     path in r.files && ReadBack(space, r.files[path]) != "" && Hash(ReadBack(space, r.files[path])) == row.hash)
  {
  }

  lemma FreshDraftIsCurrent(space: char -> bool, r: Recording, call: DraftCall)
    requires Sound(r) && CreateDraft(space, r, call).1 == Ended(Ready)
    requires Source(space, call).Wrote? && ReadTranscript(space, r).Some?
    ensures var after, body := CreateDraft(space, r, call).0, DraftBody(space, call);
            PublicationPayload(space, after).Publishable? <==> ReadBack(space, body) != "" && ReadBack(space, body) == body
  {
    var after, body := CreateDraft(space, r, call).0, DraftBody(space, call);
    var citations, source := DraftCitations(space, call, ReadTranscript(space, r).value), DraftSource(space, r);
    DraftCallKeepsSound(space, r, call);
    DraftBooks(space, r, call);
    DraftSourceIsLast(space, r);
    DraftIsAnchored(r, body, citations, source);
    DraftRow(r, body, citations, source);
    AnchorOfSameBooks(DraftedBooks(space, r, call), after, ManifestId(MinutesId(NextMinutes(r))));
    PublishableIfReadsBack(space, after);
  }

  lemma DraftRow(r: Recording, body: string, citations: seq<Citation>, source: Id)
    ensures var after, id := WithDraft(r, body, citations, source), ManifestId(MinutesId(NextMinutes(r)));
            && after.minutes != [] && after.minutes[|after.minutes| - 1].manifest == id
            && after.minutes[|after.minutes| - 1].hash == Hash(body)
            && id in after.manifests && after.manifests[id].path == MinutesFile(NextMinutes(r))
            && MinutesFile(NextMinutes(r)) in after.files && after.files[MinutesFile(NextMinutes(r))] == body
            && after.current == r.current
  {
  }

  lemma FreshTranscriptRow(r: Recording, text: string)
    requires BooksSound(r)
    ensures var after := WithTranscription(r, text);
            && CurrentTranscription(after) == Some(NextTranscription(r, text))
            && NextTranscription(r, text).manifest in after.manifests
            && var path := after.manifests[NextTranscription(r, text).manifest].path;
               path in after.files && after.files[path] == text
  {
  }

  /** A transcription just stored can be drafted from exactly when it has no carriage return. */
  lemma FreshTranscriptUsableIff(space: char -> bool, r: Recording, force: bool, heard: Recognised)
    requires Sound(r) && Transcribe(space, r, force, heard).1 == Ended(Ready)
    ensures heard.Heard?
    ensures ReadTranscript(space, Transcribe(space, r, force, heard).0).Some? <==> '\r' !in Strip(space, heard.text)
  {
    var text := Strip(space, heard.text);
    TranscribeBooks(space, r, force, heard);
    FreshTranscriptRow(r, text);
    StripIsTrimmed(space, heard.text);
    ReadBackIff(space, text);
  }

  // ---------- publications ----------

  /** The content of the current minutes version. */
  function CurrentHash(r: Recording): Option<Hash> {
    if r.minutes == [] then None else Some(r.minutes[|r.minutes| - 1].hash)
  }

  lemma MinutesAfterTranscribe(space: char -> bool, r: Recording, force: bool, heard: Recognised)
    requires BooksSound(r)
    ensures Transcribe(space, r, force, heard).0.minutes == r.minutes
  {
    TranscribeBooks(space, r, force, heard);
  }

  lemma MinutesAfterDraft(space: char -> bool, r: Recording, call: DraftCall)
    requires BooksSound(r)
    ensures var (after, outcome) := CreateDraft(space, r, call);
            r.minutes <= after.minutes && (outcome != Ended(Ready) ==> after.minutes == r.minutes)
  {
    DraftBooks(space, r, call);
  }

  lemma MinutesAfterPublication(r: Recording, cloudVersion: int)
    requires BooksSound(r)
    ensures var after := RecordPublication(r, cloudVersion).0;
            r.minutes <= after.minutes && CurrentHash(after) == CurrentHash(r)
  {
    PublicationAppends(r, cloudVersion);
  }

  /** No call removes or rewrites a minutes version, and only a stored draft changes the current
      content. */
  lemma MinutesStep(space: char -> bool, r: Recording, op: Op)
    requires BooksSound(r)
    ensures r.minutes <= Step(space, r, op).0.minutes
    ensures !StoresDraft(space, r, op) ==> CurrentHash(Step(space, r, op).0) == CurrentHash(r)
  {
    match op {
      case TranscribeOp(force, heard) => MinutesAfterTranscribe(space, r, force, heard);
      case DraftOp(call) => MinutesAfterDraft(space, r, call);
      case PublishOp(cloudVersion) => MinutesAfterPublication(r, cloudVersion);
      case Overwrite(_, _) =>
      case Delete(_) =>
    }
  }

  lemma {:induction false} MinutesOnlyGrow(space: char -> bool, r: Recording, ops: seq<Op>)
    requires Sound(r)
    ensures Sound(Run(space, r, ops)) && r.minutes <= Run(space, r, ops).minutes
    ensures NoDraftStored(space, r, ops) ==> CurrentHash(Run(space, r, ops)) == CurrentHash(r)
  {
    if ops != [] {
      MinutesOnlyGrow(space, r, ops[..|ops| - 1]);
      StepKeepsSound(space, Run(space, r, ops[..|ops| - 1]), ops[|ops| - 1]);
      MinutesStep(space, Run(space, r, ops[..|ops| - 1]), ops[|ops| - 1]);
    }
  }

  /** Recording the same cloud version again is a no-op, however much has happened since. */
  lemma PublishingTwiceIsOnce(space: char -> bool, r: Recording, cloudVersion: int, ops: seq<Op>)
    requires Sound(r) && RecordPublication(r, cloudVersion).1 == Recorded
    ensures var later := Run(space, RecordPublication(r, cloudVersion).0, ops);
            RecordPublication(later, cloudVersion) == (later, Unchanged)
  {
    var after := RecordPublication(r, cloudVersion).0;
    PublicationKeepsBooks(r, cloudVersion);
    PublicationAppends(r, cloudVersion);
    MinutesOnlyGrow(space, after, ops);
    var last := |after.minutes| - 1;
    assert Run(space, after, ops).minutes[last] == after.minutes[last];
    assert HasMinutes(Run(space, after, ops).minutes, PublishedId(cloudVersion));
  }

  lemma PayloadHash(space: char -> bool, r: Recording)
    requires Sound(r) && PublicationPayload(space, r).Publishable?
    ensures CurrentHash(r) == Some(PublicationPayload(space, r).hash)
  {
  }

  /** The text of the last draft that a run stored. */
  function LastDrafted(space: char -> bool, r: Recording, ops: seq<Op>): Option<string> {
    if ops == [] then None
    else
      var before, op := Run(space, r, ops[..|ops| - 1]), ops[|ops| - 1];
      if StoresDraft(space, before, op) && Source(space, op.call).Wrote? then Some(DraftBody(space, op.call))
      else LastDrafted(space, r, ops[..|ops| - 1])
  }

  lemma StoredDraftIsCurrent(space: char -> bool, r: Recording, call: DraftCall)
    requires BooksSound(r) && CreateDraft(space, r, call).1 == Ended(Ready)
    ensures Source(space, call).Wrote? && CurrentHash(CreateDraft(space, r, call).0) == Some(Hash(DraftBody(space, call)))
  {
    DraftBooks(space, r, call);
  }

  /** The current content is that of the last draft stored, or what it was if none was. */
  lemma {:induction false} CurrentIsLastDrafted(space: char -> bool, r: Recording, ops: seq<Op>)
    requires Sound(r)
    ensures CurrentHash(Run(space, r, ops))
            == match LastDrafted(space, r, ops) case None => CurrentHash(r) case Some(body) => Some(Hash(body))
  {
    if ops != [] {
      var front, op := ops[..|ops| - 1], ops[|ops| - 1];
      CurrentIsLastDrafted(space, r, front);
      MinutesOnlyGrow(space, r, front);
      if StoresDraft(space, Run(space, r, front), op) {
        StoredDraftIsCurrent(space, Run(space, r, front), op.call);
      } else {
        MinutesStep(space, Run(space, r, front), op);
      }
    }
  }

  /** Recording a publication, the exact condition: what is marked as published is what was sent if
      and only if the current version still has its hash, that is, if and only if no draft was stored
      after the payload was made or the last one stored has the very text that was sent. */
  lemma SentIsRecordedIff(space: char -> bool, r: Recording, ops: seq<Op>, cloudVersion: int)
    requires Sound(r) && PublicationPayload(space, r).Publishable?
    requires RecordPublication(Run(space, r, ops), cloudVersion).1 == Recorded
    ensures var sent, later := PublicationPayload(space, r), Run(space, r, ops);
            && (CurrentHash(RecordPublication(later, cloudVersion).0) == Some(sent.hash) <==> CurrentHash(later) == Some(sent.hash))
            && (CurrentHash(later) == Some(sent.hash)
                <==> LastDrafted(space, r, ops).None? || LastDrafted(space, r, ops).value == sent.body)
  {
    PayloadIsAnchored(space, r);
    PayloadHash(space, r);
    CurrentIsLastDrafted(space, r, ops);
    MinutesOnlyGrow(space, r, ops);
    MinutesStep(space, Run(space, r, ops), PublishOp(cloudVersion));
  }

  lemma RecordedIsCurrent(space: char -> bool, r: Recording, ops: seq<Op>, cloudVersion: int)
    requires Sound(r) && NoDraftStored(space, r, ops)
    requires RecordPublication(Run(space, r, ops), cloudVersion).1 == Recorded
    ensures CurrentHash(RecordPublication(Run(space, r, ops), cloudVersion).0) == CurrentHash(r)
  {
    MinutesOnlyGrow(space, r, ops);
    MinutesStep(space, Run(space, r, ops), PublishOp(cloudVersion));
  }

  /** How it fails: a draft stored after the payload was made, with any calls before it and any that
      store none after it, is what gets marked as published in place of what was sent. */
  lemma LaterDraftIsMarkedPublished(space: char -> bool, r: Recording, before: seq<Op>, call: DraftCall, after: seq<Op>, cloudVersion: int)
    requires Sound(r) && PublicationPayload(space, r).Publishable?
    requires var middle := Run(space, r, before);
             && CreateDraft(space, middle, call).1 == Ended(Ready) && Source(space, call).Wrote?
             && DraftBody(space, call) != PublicationPayload(space, r).body
             && NoDraftStored(space, CreateDraft(space, middle, call).0, after)
             && RecordPublication(Run(space, CreateDraft(space, middle, call).0, after), cloudVersion).1 == Recorded
    ensures var recorded := RecordPublication(Run(space, CreateDraft(space, Run(space, r, before), call).0, after), cloudVersion).0;
            && CurrentHash(recorded) == Some(Hash(DraftBody(space, call)))
            && CurrentHash(recorded) != Some(PublicationPayload(space, r).hash)
  {
    var middle := Run(space, r, before);
    var drafted := CreateDraft(space, middle, call).0;
    PayloadIsAnchored(space, r);
    MinutesOnlyGrow(space, r, before);
    DraftCallKeepsSound(space, middle, call);
    StoredDraftIsCurrent(space, middle, call);
    RecordedIsCurrent(space, drafted, after, cloudVersion);
  }

  // ---------- calls that show it ----------

  predicate IsBlank(c: char) {
    c == ' '
  }

  /** Minutes drafted by hand with one citation. */
  function ByHand(body: string): DraftCall {
    DraftCall(true, body, [Citation(Paragraph, "1")], WriterDies)
  }

  /** A text that stripping and reading back leave as it is. */
  predicate Plain(text: string) {
    text != "" && Trimmed(IsBlank, text) && '\r' !in text
  }

  lemma PlainTexts()
    ensures Plain("t") && Plain("a") && Plain("b") && Trimmed(IsBlank, "1") && Trimmed(IsBlank, "a\rb")
    ensures '\r' in "a\rb"
  {
    assert "a\rb"[1] == '\r';
  }

  lemma TranscribedReads(r: Recording, text: string)
    requires Sound(r) && text != "" && Trimmed(IsBlank, text)
    ensures Transcribe(IsBlank, r, true, Heard(text)).1 == Ended(Ready)
    ensures Sound(Transcribe(IsBlank, r, true, Heard(text)).0)
    ensures ReadTranscript(IsBlank, Transcribe(IsBlank, r, true, Heard(text)).0).Some? <==> '\r' !in text
  {
    StripIsTrimmed(IsBlank, text);
    TranscriptionAlwaysStores(r, text);
    TranscribeKeepsSound(IsBlank, r, true, Heard(text));
    FreshTranscriptUsableIff(IsBlank, r, true, Heard(text));
  }

  lemma OneCitation(body: string, transcript: string)
    requires Source(IsBlank, ByHand(body)).Wrote?
    ensures DraftCitations(IsBlank, ByHand(body), transcript) == [Citation(Paragraph, "1")]
  {
    PlainTexts();
    StripIsTrimmed(IsBlank, "1");
  }

  lemma DraftedByHand(r: Recording, body: string)
    requires Sound(r) && ReadTranscript(IsBlank, r).Some? && body != "" && Trimmed(IsBlank, body)
    ensures Source(IsBlank, ByHand(body)).Wrote? && DraftBody(IsBlank, ByHand(body)) == body
    ensures var (after, outcome) := CreateDraft(IsBlank, r, ByHand(body));
            && outcome == Ended(Ready) && Sound(after) && CurrentHash(after) == Some(Hash(body))
            && (PublicationPayload(IsBlank, after).Publishable? <==> '\r' !in body)
  {
    StripIsTrimmed(IsBlank, body);
    OneCitation(body, ReadTranscript(IsBlank, r).value);
    DraftReadyIff(IsBlank, r, ByHand(body));
    DraftCallKeepsSound(IsBlank, r, ByHand(body));
    StoredDraftIsCurrent(IsBlank, r, ByHand(body));
    FreshDraftPublishableIff(IsBlank, r, ByHand(body));
  }

  /** A transcription with a carriage return is stored and cannot be drafted from. */
  lemma ReturnMakesTranscriptUnusable()
    ensures var (after, outcome) := Transcribe(IsBlank, REGISTERED, false, Heard("a\rb"));
            outcome == Ended(Ready) && ReadTranscript(IsBlank, after).None?
  {
    PlainTexts();
    RunIsSound(IsBlank, []);
    TranscribedReads(REGISTERED, "a\rb");
  }

  lemma BooksLeaveTranscript(space: char -> bool, r: Recording, body: string, citations: seq<Citation>, source: Id)
    requires BooksSound(r)
    ensures ReadTranscript(space, WithDraft(r, body, citations, source)) == ReadTranscript(space, r)
  {
  }

  lemma SameBooksRead(space: char -> bool, a: Recording, b: Recording)
    requires SameBooks(a, b) && a.files == b.files
    ensures ReadTranscript(space, a) == ReadTranscript(space, b)
  {
  }

  lemma DraftLeavesTranscript(space: char -> bool, r: Recording, call: DraftCall)
    requires BooksSound(r) && CreateDraft(space, r, call).1 == Ended(Ready)
    ensures var after := CreateDraft(space, r, call).0;
            && ReadTranscript(space, after) == ReadTranscript(space, r)
            && |after.minutes| == |r.minutes| + 1 && after.minutes[..|r.minutes|] == r.minutes
            && after.minutes[|r.minutes|].id.MinutesId?
  {
    DraftBooks(space, r, call);
    BooksLeaveTranscript(space, r, DraftBody(space, call), DraftCitations(space, call, ReadTranscript(space, r).value), DraftSource(space, r));
    SameBooksRead(space, CreateDraft(space, r, call).0, DraftedBooks(space, r, call));
  }

  /** Sound, with a transcript to draft from and nothing published. */
  predicate Draftable(r: Recording) {
    Sound(r) && ReadTranscript(IsBlank, r).Some? && OnlyDrafts(r.minutes)
  }

  predicate OnlyDrafts(rows: seq<MinutesRow>) {
    forall i :: 0 <= i < |rows| ==> rows[i].id.MinutesId?
  }

  lemma OneMoreDraft(rows: seq<MinutesRow>, after: seq<MinutesRow>)
    requires OnlyDrafts(rows) && |after| == |rows| + 1 && after[..|rows|] == rows && after[|rows|].id.MinutesId?
    ensures OnlyDrafts(after)
  {
    forall i | 0 <= i < |after| ensures after[i].id.MinutesId? { if i < |rows| { assert after[i] == after[..|rows|][i]; } }
  }

  lemma StaysDraftable(r: Recording, body: string)
    requires Draftable(r) && body != "" && Trimmed(IsBlank, body)
    ensures Draftable(CreateDraft(IsBlank, r, ByHand(body)).0) && CreateDraft(IsBlank, r, ByHand(body)).0.minutes != []
  {
    DraftedByHand(r, body);
    DraftLeavesTranscript(IsBlank, r, ByHand(body));
    OneMoreDraft(r.minutes, CreateDraft(IsBlank, r, ByHand(body)).0.minutes);
  }

  lemma FirstPublicationIsRecorded(r: Recording, cloudVersion: int)
    requires Draftable(r) && r.minutes != []
    ensures RecordPublication(r, cloudVersion).1 == Recorded
  {
  }

  /** Other minutes drafted by hand after the payload are what the recording then marks. */
  lemma LaterDraftOvertakes(r: Recording, later: string)
    requires Draftable(r) && PublicationPayload(IsBlank, r).Publishable?
    requires Plain(later) && later != PublicationPayload(IsBlank, r).body
    ensures var recorded := RecordPublication(CreateDraft(IsBlank, r, ByHand(later)).0, 1);
            && recorded.1 == Recorded && CurrentHash(recorded.0) == Some(Hash(later))
            && CurrentHash(recorded.0) != Some(PublicationPayload(IsBlank, r).hash)
  {
    DraftedByHand(r, later);
    StaysDraftable(r, later);
    FirstPublicationIsRecorded(CreateDraft(IsBlank, r, ByHand(later)).0, 1);
    LaterDraftIsMarkedPublished(IsBlank, r, [], ByHand(later), [], 1);
  }

  lemma SentByHand(r: Recording, sent: string)
    requires Draftable(r) && Plain(sent)
    ensures var drafted := CreateDraft(IsBlank, r, ByHand(sent)).0;
            && Draftable(drafted) && PublicationPayload(IsBlank, drafted).Publishable? && PublicationPayload(IsBlank, drafted).body == sent
  {
    DraftedByHand(r, sent);
    StaysDraftable(r, sent);
    PayloadIsAnchored(IsBlank, CreateDraft(IsBlank, r, ByHand(sent)).0);
  }

  lemma TranscribedFirst(text: string)
    requires Plain(text)
    ensures Draftable(Transcribe(IsBlank, REGISTERED, true, Heard(text)).0)
  {
    RunIsSound(IsBlank, []);
    TranscribedReads(REGISTERED, text);
    MinutesAfterTranscribe(IsBlank, REGISTERED, true, Heard(text));
  }

  lemma RunOfTwo(space: char -> bool, r: Recording, first: Op, second: Op)
    ensures Run(space, r, [first]) == Step(space, r, first).0
    ensures Run(space, r, [first, second]) == Step(space, Step(space, r, first).0, second).0
  {
    assert [first][..0] == [] && [first, second][..1] == [first];
  }

  /** Minutes "a" are sent, minutes "b" drafted before the answer is recorded: "b" is what a recording
      then shows as published. */
  lemma SentIsNotRecorded()
    ensures var r := Run(IsBlank, REGISTERED, [TranscribeOp(true, Heard("t")), DraftOp(ByHand("a"))]);
            var recorded := RecordPublication(Run(IsBlank, r, [DraftOp(ByHand("b"))]), 1);
            && PublicationPayload(IsBlank, r).Publishable? && PublicationPayload(IsBlank, r).body == "a"
            && recorded.1 == Recorded && CurrentHash(recorded.0) == Some(Hash("b"))
            && CurrentHash(recorded.0) != Some(PublicationPayload(IsBlank, r).hash)
  {
    PlainTexts();
    TranscribedFirst("t");
    RunOfTwo(IsBlank, REGISTERED, TranscribeOp(true, Heard("t")), DraftOp(ByHand("a")));
    var r := Run(IsBlank, REGISTERED, [TranscribeOp(true, Heard("t")), DraftOp(ByHand("a"))]);
    RunOfTwo(IsBlank, r, DraftOp(ByHand("b")), DraftOp(ByHand("b")));
    SentByHand(Transcribe(IsBlank, REGISTERED, true, Heard("t")).0, "a");
    LaterDraftOvertakes(r, "b");
  }

  /** Minutes with a carriage return are stored and cannot be published. */
  lemma ReturnMakesDraftUnpublishable()
    ensures var r := Transcribe(IsBlank, REGISTERED, true, Heard("t")).0;
            var (after, outcome) := CreateDraft(IsBlank, r, ByHand("a\rb"));
            outcome == Ended(Ready) && !PublicationPayload(IsBlank, after).Publishable?
  {
    PlainTexts();
    TranscribedFirst("t");
    DraftedByHand(Transcribe(IsBlank, REGISTERED, true, Heard("t")).0, "a\rb");
  }
}
