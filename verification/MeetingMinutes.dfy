/** One recording of a meeting: its transcription versions, its minutes and their publication. Tables
    are rows in insertion order; calls do not overlap. */
module MeetingMinutes {
  import opened Options
  import opened Texts

  // ---------- ids, hashes, rows ----------

  datatype Kind = CharRange | Paragraph | Segment | TimeRange | OtherKind(text: string)

  datatype Citation = Citation(kind: Kind, locator: string)

  /** Stable ids are injective in what they are made from, and so are hashes. */
  datatype Id =
    | TranscriptionId(version: int, hash: Hash)
    | MinutesId(version: int)
    | PublishedId(cloudVersion: int)
    | EvidenceId(minutes: Id, citation: Citation)
    | ManifestId(of: Id)

  datatype Hash = Hash(text: string)

  datatype Processor = Transcription | Minutes
  datatype Status = Processing | Ready | Blocked | FailedRetryable
  datatype Attempt = Attempt(processor: Processor, number: int, status: Status)

  datatype TranscriptionRow = TranscriptionRow(id: Id, version: int, hash: Hash, manifest: Id, supersedes: Option<Id>)
  datatype PublicationState = Draft | Published
  datatype MinutesRow = MinutesRow(id: Id, version: int, hash: Hash, manifest: Id, state: PublicationState)
  datatype Document = Document(currentVersion: int, state: PublicationState)
  datatype Path = TranscriptFile(version: int) | MinutesFile(version: int)
  datatype Manifest = Manifest(path: Path, hash: Hash, evidence: seq<Id>)
  datatype Evidence = Evidence(source: Id, citation: Citation)

  datatype Recording = Recording(
    attempts: seq<Attempt>, transcriptions: seq<TranscriptionRow>, current: Option<Id>,
    document: Option<Document>, minutes: seq<MinutesRow>, evidence: map<Id, Evidence>,
    manifests: map<Id, Manifest>, files: map<Path, string>)

  const REGISTERED := Recording([], [], None, None, [], map[], map[], map[])

  /** What a call ends with. `Raised` is an exception or a crash after the attempt was started. */
  datatype Outcome = Unchanged | Ended(status: Status) | Raised | Recorded | Missing

  // ---------- attempts ----------

  /** ORDER BY attempt_no DESC, started_at DESC. */
  function LatestAttempt(attempts: seq<Attempt>, p: Processor): Option<Attempt> {
    if attempts == [] then None
    else
      var earlier := LatestAttempt(attempts[..|attempts| - 1], p);
      var last := attempts[|attempts| - 1];
      if last.processor != p || (earlier.Some? && earlier.value.number > last.number) then earlier else Some(last)
  }

  function NextNumber(attempts: seq<Attempt>, p: Processor): int {
    match LatestAttempt(attempts, p)
    case None => 1
    case Some(a) => a.number + 1
  }

  function Opened(attempts: seq<Attempt>, p: Processor): (r: seq<Attempt>)
    ensures r != []
  {
    attempts + [Attempt(p, NextNumber(attempts, p), Processing)]
  }

  /** The attempt a call has opened is the last one. */
  function Closed(attempts: seq<Attempt>, status: Status): seq<Attempt>
    requires attempts != []
  {
    attempts[|attempts| - 1 := attempts[|attempts| - 1].(status := status)]
  }

  // ---------- transcribe ----------

  /** What the recogniser does: nothing usable, an error of either kind, or a text. */
  datatype Recognised = Dies | Fails(retryable: bool) | Heard(text: string)

  function LatestTranscription(rows: seq<TranscriptionRow>): Option<TranscriptionRow> {
    if rows == [] then None
    else
      var earlier := LatestTranscription(rows[..|rows| - 1]);
      if earlier.Some? && earlier.value.version > rows[|rows| - 1].version then earlier else Some(rows[|rows| - 1])
  }

  predicate HasTranscription(rows: seq<TranscriptionRow>, id: Id) {
    exists i :: 0 <= i < |rows| && rows[i].id == id
  }

  function NextTranscription(r: Recording, text: string): TranscriptionRow {
    var previous := LatestTranscription(r.transcriptions);
    var version := if previous.Some? then previous.value.version + 1 else 1;
    var id := TranscriptionId(version, Hash(text));
    TranscriptionRow(id, version, Hash(text), ManifestId(id), if previous.Some? then Some(previous.value.id) else None)
  }

  function WithTranscription(r: Recording, text: string): Recording {
    var row := NextTranscription(r, text);
    r.(transcriptions := r.transcriptions + [row], current := Some(row.id),
       manifests := r.manifests[row.manifest := Manifest(TranscriptFile(row.version), row.hash, [])],
       files := r.files[TranscriptFile(row.version) := text])
  }

  /** The closing transaction of `transcribe`; a primary key that is taken rolls it back. */
  function StoreTranscription(r: Recording, text: string): Option<Recording> {
    var row := NextTranscription(r, text);
    if HasTranscription(r.transcriptions, row.id) || row.manifest in r.manifests then None else Some(WithTranscription(r, text))
  }

  predicate Settled(attempt: Option<Attempt>) {
    attempt.Some? && attempt.value.status != Processing
  }

  function Transcribe(space: char -> bool, r: Recording, force: bool, heard: Recognised): (Recording, Outcome) {
    if !force && Settled(LatestAttempt(r.attempts, Transcription)) then (r, Unchanged)
    else
      var open := Opened(r.attempts, Transcription);
      match heard
      case Dies => (r.(attempts := open), Raised)
      case Fails(retryable) =>
        var status := if retryable then FailedRetryable else Blocked;
        (r.(attempts := Closed(open, status)), Ended(status))
      case Heard(raw) =>
        var text := Strip(space, raw);
        if text == "" then (r.(attempts := Closed(open, FailedRetryable)), Ended(FailedRetryable))
        else
          match StoreTranscription(r, text)
          case None => (r.(attempts := open, files := r.files - {TranscriptFile(NextTranscription(r, text).version)}), Raised)
          case Some(stored) => (stored.(attempts := Closed(open, Ready)), Ended(Ready))
  }

  // ---------- create_minutes_draft ----------

  function FindTranscription(rows: seq<TranscriptionRow>, id: Id): Option<TranscriptionRow> {
    if rows == [] then None
    else if rows[|rows| - 1].id == id then Some(rows[|rows| - 1])
    else FindTranscription(rows[..|rows| - 1], id)
  }

  /** The join of the recording with its current transcription. */
  function CurrentTranscription(r: Recording): Option<TranscriptionRow> {
    if r.current.None? then None else FindTranscription(r.transcriptions, r.current.value)
  }

  /** The transcript as it reads back, if it still has the recorded hash. */
  function ReadTranscript(space: char -> bool, r: Recording): Option<string> {
    match CurrentTranscription(r)
    case None => None
    case Some(row) =>
      if row.manifest !in r.manifests || r.manifests[row.manifest].path !in r.files then None
      else
        var text := ReadBack(space, r.files[r.manifests[row.manifest].path]);
        if text == "" || Hash(text) != row.hash then None else Some(text)
  }

  function Decimal(n: nat): string {
    if n < 10 then [('0' as int + n) as char] else Decimal(n / 10) + Decimal(n % 10)
  }

  /** `_normalize_citations`: with none given, one that covers the whole transcript. */
  function WithDefault(citations: seq<Citation>, transcript: string): (r: seq<Citation>)
    ensures r != []
  {
    if citations == [] then [Citation(CharRange, "char:0-" + Decimal(|transcript|))] else citations
  }

  /** A citation, once stripped, that is accepted: it has a locator, of a known kind. */
  predicate UsableCitation(c: Citation) {
    c.locator != "" && !c.kind.OtherKind?
  }

  predicate AllUsable(citations: seq<Citation>) {
    forall i :: 0 <= i < |citations| ==> UsableCitation(citations[i])
  }

  function Normalized(space: char -> bool, citations: seq<Citation>): (r: seq<Citation>)
    ensures |r| == |citations|
  {
    seq(|citations|, i requires 0 <= i < |citations| => Citation(citations[i].kind, Strip(space, citations[i].locator)))
  }

  /** What the minutes come from: the caller's own text, or what the model does. */
  datatype Written = WriterDies | WriterFails(retryable: bool) | Wrote(body: string, citations: seq<Citation>)
  datatype DraftCall = DraftCall(force: bool, manual: string, citations: seq<Citation>, written: Written)

  function Source(space: char -> bool, call: DraftCall): Written {
    if Strip(space, call.manual) != "" then Wrote(Strip(space, call.manual), call.citations) else call.written
  }

  function DraftBody(space: char -> bool, call: DraftCall): string
    requires Source(space, call).Wrote?
  {
    Strip(space, Source(space, call).body)
  }

  /** The caller's citations, else the writer's, else the default one. */
  function DraftCitations(space: char -> bool, call: DraftCall, transcript: string): (c: seq<Citation>)
    requires Source(space, call).Wrote?
    ensures c != []
  {
    Normalized(space, WithDefault(if call.citations != [] then call.citations else Source(space, call).citations, transcript))
  }

  function EvidenceIds(minutes: Id, citations: seq<Citation>): (r: seq<Id>)
    ensures |r| == |citations| && forall i :: 0 <= i < |r| ==> r[i] == EvidenceId(minutes, citations[i])
  {
    seq(|citations|, i requires 0 <= i < |citations| => EvidenceId(minutes, citations[i]))
  }

  predicate Distinct(citations: seq<Citation>) {
    forall i, j :: 0 <= i < j < |citations| ==> citations[i] != citations[j]
  }

  function EvidenceRows(minutes: Id, citations: seq<Citation>, source: Id): map<Id, Evidence> {
    if citations == [] then map[]
    else
      var last := citations[|citations| - 1];
      EvidenceRows(minutes, citations[..|citations| - 1], source)[EvidenceId(minutes, last) := Evidence(source, last)]
  }

  /** One row per citation, each pointing at `source`. */
  lemma {:induction false} EvidenceRowsHold(minutes: Id, citations: seq<Citation>, source: Id)
    ensures forall e :: e in EvidenceRows(minutes, citations, source)
              <==> e.EvidenceId? && e.minutes == minutes && e.citation in citations
    ensures forall e :: e in EvidenceRows(minutes, citations, source) ==>
              EvidenceRows(minutes, citations, source)[e] == Evidence(source, e.citation)
  {
    if citations != [] { EvidenceRowsHold(minutes, citations[..|citations| - 1], source); }
  }

  predicate HasMinutes(rows: seq<MinutesRow>, id: Id) {
    exists i :: 0 <= i < |rows| && rows[i].id == id
  }

  function NextMinutes(r: Recording): int {
    if r.document.Some? then r.document.value.currentVersion + 1 else 1
  }

  function WithDraft(r: Recording, body: string, citations: seq<Citation>, source: Id): Recording {
    var version := NextMinutes(r);
    var id := MinutesId(version);
    r.(document := Some(Document(version, Draft)),
       minutes := r.minutes + [MinutesRow(id, version, Hash(body), ManifestId(id), Draft)],
       evidence := r.evidence + EvidenceRows(id, citations, source),
       manifests := r.manifests[ManifestId(id) := Manifest(MinutesFile(version), Hash(body), EvidenceIds(id, citations))],
       files := r.files[MinutesFile(version) := body])
  }

  /** The closing transaction of `create_minutes_draft`. */
  function StoreDraft(r: Recording, body: string, citations: seq<Citation>, source: Id): Option<Recording> {
    var id := MinutesId(NextMinutes(r));
    if HasMinutes(r.minutes, id) || ManifestId(id) in r.manifests || !Distinct(citations)
       || EvidenceRows(id, citations, source).Keys * r.evidence.Keys != {} then None
    else Some(WithDraft(r, body, citations, source))
  }

  predicate MayDraft(r: Recording, call: DraftCall) {
    call.force || LatestAttempt(r.attempts, Minutes).None? || LatestAttempt(r.attempts, Minutes).value.status != Ready
  }

  /** What follows once there is a transcript and a text. */
  function ConcludeDraft(space: char -> bool, r: Recording, call: DraftCall, transcript: string, source: Id): (Recording, Outcome)
    requires Source(space, call).Wrote?
  {
    var open := Opened(r.attempts, Minutes);
    var body, citations := DraftBody(space, call), DraftCitations(space, call, transcript);
    if body == "" || !AllUsable(citations) then (r.(attempts := open), Raised)
    else
      match StoreDraft(r, body, citations, source)
      case None => (r.(attempts := open, files := r.files - {MinutesFile(NextMinutes(r))}), Raised)
      case Some(stored) => (stored.(attempts := Closed(open, Ready)), Ended(Ready))
  }

  function CreateDraft(space: char -> bool, r: Recording, call: DraftCall): (Recording, Outcome) {
    if !MayDraft(r, call) then (r, Unchanged)
    else
      var open := Opened(r.attempts, Minutes);
      match ReadTranscript(space, r)
      case None => (r.(attempts := Closed(open, Blocked)), Ended(Blocked))
      case Some(transcript) =>
        match Source(space, call)
        case WriterDies => (r.(attempts := open), Raised)
        case WriterFails(retryable) =>
          var status := if retryable then FailedRetryable else Blocked;
          (r.(attempts := Closed(open, status)), Ended(status))
        case Wrote(_, _) => ConcludeDraft(space, r, call, transcript, CurrentTranscription(r).value.id)
  }

  // ---------- publication ----------

  datatype Payload =
    | Publishable(transcription: Id, body: string, hash: Hash, evidence: seq<Evidence>)
    | TranscriptionNotReady | MinutesMissing | IntegrityFailed | EvidenceMissing

  function FindMinutes(rows: seq<MinutesRow>, version: int): Option<MinutesRow> {
    if rows == [] then None
    else if rows[|rows| - 1].version == version then Some(rows[|rows| - 1])
    else FindMinutes(rows[..|rows| - 1], version)
  }

  function CurrentMinutes(r: Recording): Option<MinutesRow> {
    if r.document.None? then None else FindMinutes(r.minutes, r.document.value.currentVersion)
  }

  predicate PointsAt(r: Recording, id: Id, transcription: Id) {
    id in r.evidence && r.evidence[id].source == transcription
  }

  function EvidenceOf(r: Recording, ids: seq<Id>): (e: seq<Evidence>)
    requires forall i :: 0 <= i < |ids| ==> ids[i] in r.evidence
    ensures |e| == |ids| && forall i :: 0 <= i < |ids| ==> e[i] == r.evidence[ids[i]]
  {
    seq(|ids|, i requires 0 <= i < |ids| => r.evidence[ids[i]])
  }

  /** `cloud_publication_payload`. */
  function PublicationPayload(space: char -> bool, r: Recording): Payload {
    match CurrentTranscription(r)
    case None => TranscriptionNotReady
    case Some(transcription) =>
      match CurrentMinutes(r)
      case None => MinutesMissing
      case Some(row) =>
        if row.manifest !in r.manifests then MinutesMissing
        else
          var manifest := r.manifests[row.manifest];
          if manifest.path !in r.files then IntegrityFailed
          else
            var body := ReadBack(space, r.files[manifest.path]);
            if body == "" || Hash(body) != row.hash then IntegrityFailed
            else if exists i :: 0 <= i < |manifest.evidence| && !PointsAt(r, manifest.evidence[i], transcription.id) then EvidenceMissing
            else Publishable(transcription.id, body, row.hash, EvidenceOf(r, manifest.evidence))
  }

  /** `record_cloud_publication`. */
  function RecordPublication(r: Recording, cloudVersion: int): (Recording, Outcome) {
    if HasMinutes(r.minutes, PublishedId(cloudVersion)) then (r, Unchanged)
    else
      match CurrentMinutes(r)
      case None => (r, Missing)
      case Some(row) =>
        var version := r.document.value.currentVersion + 1;
        (r.(document := Some(Document(version, Published)),
            minutes := r.minutes + [MinutesRow(PublishedId(cloudVersion), version, row.hash, row.manifest, Published)]),
         Recorded)
  }

  // ---------- runs ----------

  /** A call, or something else writing or removing one of the managed files. */
  datatype Op =
    | TranscribeOp(force: bool, heard: Recognised)
    | DraftOp(call: DraftCall)
    | PublishOp(cloudVersion: int)
    | Overwrite(path: Path, text: string)
    | Delete(path: Path)

  function Step(space: char -> bool, r: Recording, op: Op): (Recording, Outcome) {
    match op
    case TranscribeOp(force, heard) => Transcribe(space, r, force, heard)
    case DraftOp(call) => CreateDraft(space, r, call)
    case PublishOp(cloudVersion) => RecordPublication(r, cloudVersion)
    case Overwrite(path, text) => (r.(files := r.files[path := text]), Unchanged)
    case Delete(path) => (r.(files := r.files - {path}), Unchanged)
  }

  function Run(space: char -> bool, r: Recording, ops: seq<Op>): Recording {
    if ops == [] then r else Step(space, Run(space, r, ops[..|ops| - 1]), ops[|ops| - 1]).0
  }
}
