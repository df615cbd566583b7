/** The meeting repository as it runs: attempts committed first, row inserts and updates in place, and
    the loops over citations and evidence. */
module MeetingRepository {
  import opened Options
  import opened Texts
  import opened MeetingMinutes

  class LocalMeetingRepository {
    var attempts: seq<Attempt>
    var transcriptions: seq<TranscriptionRow>
    var current: Option<Id>
    var document: Option<Document>
    var minutes: seq<MinutesRow>
    var evidence: map<Id, Evidence>
    var manifests: map<Id, Manifest>
    var files: map<Path, string>

    constructor ()
      ensures Snapshot() == REGISTERED
    {
      attempts, transcriptions, current, document := [], [], None, None;
      minutes, evidence, manifests, files := [], map[], map[], map[];
    }

    function Snapshot(): Recording
      reads this
    {
      Recording(attempts, transcriptions, current, document, minutes, evidence, manifests, files)
    }

    method StartAttempt(p: Processor)
      modifies this`attempts
      ensures attempts == Opened(old(attempts), p)
    {
      attempts := attempts + [Attempt(p, NextNumber(attempts, p), Processing)];
    }

    method FinishAttempt(status: Status)
      requires attempts != []
      modifies this`attempts
      ensures attempts == Closed(old(attempts), status)
    {
      var last := |attempts| - 1;
      attempts := attempts[last := attempts[last].(status := status)];
    }

    /** `transcribe`: the attempt first, then the recogniser, then one closing transaction. */
    method TranscribeRecording(space: char -> bool, force: bool, heard: Recognised) returns (outcome: Outcome)
      modifies this
      ensures (Snapshot(), outcome) == Transcribe(space, old(Snapshot()), force, heard)
    {
      if !force && Settled(LatestAttempt(attempts, Transcription)) {
        outcome := Unchanged;
      } else {
        ghost var before := Snapshot();
        StartAttempt(Transcription);
        match heard {
          case Dies => outcome := Raised;
          case Fails(retryable) =>
            var status := if retryable then FailedRetryable else Blocked;
            FinishAttempt(status);
            outcome := Ended(status);
          case Heard(raw) =>
            var text := Strip(space, raw);
            if text == "" {
              FinishAttempt(FailedRetryable);
              outcome := Ended(FailedRetryable);
            } else {
              var stored := InsertTranscription(text);
              if stored { FinishAttempt(Ready); }
              outcome := if stored then Ended(Ready) else Raised;
            }
        }
      }
    }

    /** The file, the manifest, the version row and the current version; or the file taken away
        again. */
    method InsertTranscription(text: string) returns (stored: bool)
      modifies this
      ensures attempts == old(attempts)
      ensures var before := old(Snapshot());
              match StoreTranscription(before, text)
              case None => !stored && Snapshot() == before.(files := before.files - {TranscriptFile(NextTranscription(before, text).version)})
              case Some(after) => stored && Snapshot() == after
    {
      var previous := LatestTranscription(transcriptions);
      var version := if previous.Some? then previous.value.version + 1 else 1;
      var id := TranscriptionId(version, Hash(text));
      var target := TranscriptFile(version);
      var before := files;
      files := files[target := text];
      if HasTranscription(transcriptions, id) || ManifestId(id) in manifests {
        files := files - {target};
        assert files == before - {target};
        stored := false;
      } else {
        manifests := manifests[ManifestId(id) := Manifest(target, Hash(text), [])];
        var supersedes := if previous.Some? then Some(previous.value.id) else None;
        transcriptions := transcriptions + [TranscriptionRow(id, version, Hash(text), ManifestId(id), supersedes)];
        current := Some(id);
        stored := true;
      }
    }

    /** `create_minutes_draft`. */
    method CreateMinutesDraft(space: char -> bool, call: DraftCall) returns (outcome: Outcome)
      modifies this
      ensures (Snapshot(), outcome) == CreateDraft(space, old(Snapshot()), call)
    {
      if !MayDraft(Snapshot(), call) {
        outcome := Unchanged;
      } else {
        ghost var before := Snapshot();
        var transcript := ReadTranscript(space, Snapshot());
        var transcription := CurrentTranscription(Snapshot());
        StartAttempt(Minutes);
        var output := Source(space, call);
        if transcript.None? {
          FinishAttempt(Blocked);
          outcome := Ended(Blocked);
        } else if output.WriterDies? {
          outcome := Raised;
        } else if output.WriterFails? {
          var status := if output.retryable then FailedRetryable else Blocked;
          FinishAttempt(status);
          outcome := Ended(status);
        } else {
          outcome := Conclude(space, before, call, transcript.value, transcription.value.id);
        }
      }
    }

    /** From a transcript and a text on; `before` is what the attempt was opened on. */
    method Conclude(space: char -> bool, ghost before: Recording, call: DraftCall, transcript: string, source: Id)
      returns (outcome: Outcome)
      requires Source(space, call).Wrote? && Snapshot() == before.(attempts := Opened(before.attempts, Minutes))
      modifies this
      ensures (Snapshot(), outcome) == ConcludeDraft(space, before, call, transcript, source)
    {
      var output := Source(space, call);
      var citations, valid := NormalizeCitations(space, if call.citations != [] then call.citations else output.citations, transcript);
      var body := Strip(space, output.body);
      outcome := Raised;
      ConcludedOnOpened(space, before, Snapshot(), call, transcript, source);
      if body != "" && valid {
        var stored := InsertDraft(body, citations, source);
        if stored {
          FinishAttempt(Ready);
          outcome := Ended(Ready);
        }
      }
    }

    /** The file, the manifest, the document, the version row, and one evidence row per citation; or
        everything rolled back and the file taken away. */
    method InsertDraft(body: string, citations: seq<Citation>, source: Id) returns (stored: bool)
      modifies this
      ensures attempts == old(attempts)
      ensures var before := old(Snapshot());
              match StoreDraft(before, body, citations, source)
              case None => !stored && Snapshot() == before.(files := before.files - {MinutesFile(NextMinutes(before))})
              case Some(after) => stored && Snapshot() == after
    {
      var version := if document.Some? then document.value.currentVersion + 1 else 1;
      var id := MinutesId(version);
      var rows, inserted := InsertEvidence(id, citations, source, evidence);
      stored := inserted && !HasMinutes(minutes, id) && ManifestId(id) !in manifests;
      if stored {
        CommitDraft(version, body, citations, source, rows);
      } else {
        RemoveFile(MinutesFile(version));
      }
    }

    /** The rows of a draft whose keys are all free. */
    method CommitDraft(version: int, body: string, citations: seq<Citation>, source: Id, rows: map<Id, Evidence>)
      requires version == NextMinutes(Snapshot()) && rows == evidence + EvidenceRows(MinutesId(version), citations, source)
      modifies this
      ensures Snapshot() == WithDraft(old(Snapshot()), body, citations, source)
    {
      var id, target := MinutesId(version), MinutesFile(version);
      files := files[target := body];
      manifests := manifests[ManifestId(id) := Manifest(target, Hash(body), EvidenceIds(id, citations))];
      document := Some(Document(version, Draft));
      minutes := minutes + [MinutesRow(id, version, Hash(body), ManifestId(id), Draft)];
      evidence := rows;
    }

    method RemoveFile(path: Path)
      modifies this`files
      ensures files == old(files) - {path}
    {
      files := files - {path};
    }

    /** `record_cloud_publication`. */
    method RecordCloudPublication(cloudVersion: int) returns (outcome: Outcome)
      modifies this
      ensures (Snapshot(), outcome) == RecordPublication(old(Snapshot()), cloudVersion)
    {
      var row := CurrentMinutes(Snapshot());
      if HasMinutes(minutes, PublishedId(cloudVersion)) {
        outcome := Unchanged;
      } else if row.None? {
        outcome := Missing;
      } else {
        var version := document.value.currentVersion + 1;
        minutes := minutes + [MinutesRow(PublishedId(cloudVersion), version, row.value.hash, row.value.manifest, Published)];
        document := Some(Document(version, Published));
        outcome := Recorded;
      }
    }

    /** `cloud_publication_payload`: each evidence row is looked up and must point at the current
        transcription. */
    method CloudPublicationPayload(space: char -> bool) returns (payload: Payload)
      ensures payload == PublicationPayload(space, Snapshot())
    {
      var transcription, row := CurrentTranscription(Snapshot()), CurrentMinutes(Snapshot());
      if transcription.None? {
        payload := TranscriptionNotReady;
      } else if row.None? || row.value.manifest !in manifests {
        payload := MinutesMissing;
      } else {
        var manifest := manifests[row.value.manifest];
        var body := if manifest.path in files then ReadBack(space, files[manifest.path]) else "";
        if body == "" || Hash(body) != row.value.hash {
          payload := IntegrityFailed;
        } else {
          var found, missing, i := [], false, 0;
          while i < |manifest.evidence| && !missing
            invariant i <= |manifest.evidence|
            invariant !missing ==> |found| == i
            invariant !missing ==> forall k :: 0 <= k < i ==> PointsAt(Snapshot(), manifest.evidence[k], transcription.value.id)
                                                              && found[k] == evidence[manifest.evidence[k]]
            invariant missing ==> exists k :: 0 <= k < i && !PointsAt(Snapshot(), manifest.evidence[k], transcription.value.id)
          {
            if PointsAt(Snapshot(), manifest.evidence[i], transcription.value.id) {
              found := found + [evidence[manifest.evidence[i]]];
            } else {
              missing := true;
            }
            i := i + 1;
          }
          if missing {
            payload := EvidenceMissing;
          } else {
            assert found == EvidenceOf(Snapshot(), manifest.evidence);
            payload := Publishable(transcription.value.id, body, row.value.hash, found);
          }
        }
      }
    }
  }

  lemma AttemptsDoNotMatter(r: Recording, attempts: seq<Attempt>, body: string, citations: seq<Citation>, source: Id)
    ensures StoreDraft(r.(attempts := attempts), body, citations, source)
            == match StoreDraft(r, body, citations, source)
               case None => None
               case Some(after) => Some(after.(attempts := attempts))
  {
  }

  /** Concluding a draft on the rows with the attempt already opened. */
  lemma ConcludedOnOpened(space: char -> bool, before: Recording, open: Recording, call: DraftCall, transcript: string, source: Id)
    requires Source(space, call).Wrote? && open == before.(attempts := Opened(before.attempts, Minutes))
    ensures var body, citations := DraftBody(space, call), DraftCitations(space, call, transcript);
            ConcludeDraft(space, before, call, transcript, source)
            == if body == "" || !AllUsable(citations) then (open, Raised)
               else
                 match StoreDraft(open, body, citations, source)
                 case None => (open.(files := open.files - {MinutesFile(NextMinutes(open))}), Raised)
                 case Some(stored) => (stored.(attempts := Closed(open.attempts, Ready)), Ended(Ready))
  {
    AttemptsDoNotMatter(before, open.attempts, DraftBody(space, call), DraftCitations(space, call, transcript), source);
  }

  /** The inserts of one draft's evidence; a taken primary key stops them. */
  method InsertEvidence(id: Id, citations: seq<Citation>, source: Id, evidence: map<Id, Evidence>)
    returns (rows: map<Id, Evidence>, inserted: bool)
    ensures inserted <==> Distinct(citations) && EvidenceRows(id, citations, source).Keys * evidence.Keys == {}
    ensures inserted ==> rows == evidence + EvidenceRows(id, citations, source)
  {
    var i := 0;
    rows, inserted := evidence, true;
    assert EvidenceRows(id, citations[..0], source) == map[];
    while i < |citations| && inserted
      invariant i <= |citations|
      invariant inserted ==> Distinct(citations[..i]) && EvidenceRows(id, citations[..i], source).Keys !! evidence.Keys
                             && rows == evidence + EvidenceRows(id, citations[..i], source)
      invariant !inserted ==> !Distinct(citations) || EvidenceRows(id, citations, source).Keys * evidence.Keys != {}
    {
      if EvidenceId(id, citations[i]) in rows {
        EvidenceTaken(id, citations, source, evidence, i);
        inserted := false;
      } else {
        EvidenceAdded(id, citations, source, evidence, i);
        rows := rows[EvidenceId(id, citations[i]) := Evidence(source, citations[i])];
      }
      i := i + 1;
    }
    if inserted { assert citations[..i] == citations; }
  }

  /** `_normalize_citations`. */
  method NormalizeCitations(space: char -> bool, citations: seq<Citation>, transcript: string)
    returns (normalized: seq<Citation>, valid: bool)
    ensures valid <==> AllUsable(Normalized(space, WithDefault(citations, transcript)))
    ensures valid ==> normalized == Normalized(space, WithDefault(citations, transcript))
  {
    var raw := WithDefault(citations, transcript);
    var i := 0;
    normalized, valid := [], true;
    while i < |raw| && valid
      invariant i <= |raw|
      invariant valid ==> normalized == Normalized(space, raw)[..i] && AllUsable(normalized)
      invariant !valid ==> !AllUsable(Normalized(space, raw))
    {
      var item := Citation(raw[i].kind, Strip(space, raw[i].locator));
      assert item == Normalized(space, raw)[i];
      if UsableCitation(item) { normalized := normalized + [item]; } else { valid := false; }
      i := i + 1;
    }
    if valid { assert Normalized(space, raw)[..i] == Normalized(space, raw); }
  }

  /** A key that is taken repeats an earlier citation or was there before: the whole draft is refused. */
  lemma EvidenceTaken(id: Id, citations: seq<Citation>, source: Id, evidence: map<Id, Evidence>, i: nat)
    requires i < |citations|
    requires EvidenceId(id, citations[i]) in evidence || EvidenceId(id, citations[i]) in EvidenceRows(id, citations[..i], source)
    ensures !Distinct(citations) || EvidenceRows(id, citations, source).Keys * evidence.Keys != {}
  {
    EvidenceRowsHold(id, citations[..i], source);
    EvidenceRowsHold(id, citations, source);
    if citations[i] in citations[..i] {
      var k :| 0 <= k < i && citations[..i][k] == citations[i];
      assert citations[k] == citations[i];
    } else {
      assert EvidenceId(id, citations[i]) in EvidenceRows(id, citations, source).Keys * evidence.Keys;
    }
  }

  lemma DistinctOneMore(citations: seq<Citation>, i: nat)
    requires i < |citations| && Distinct(citations[..i]) && citations[i] !in citations[..i]
    ensures Distinct(citations[..i + 1])
  {
  }

  lemma RowsOneMore(id: Id, citations: seq<Citation>, source: Id, evidence: map<Id, Evidence>, i: nat)
    requires i < |citations| && EvidenceId(id, citations[i]) !in evidence
    requires EvidenceRows(id, citations[..i], source).Keys !! evidence.Keys
    ensures EvidenceRows(id, citations[..i + 1], source).Keys !! evidence.Keys
    ensures evidence + EvidenceRows(id, citations[..i + 1], source)
            == (evidence + EvidenceRows(id, citations[..i], source))[EvidenceId(id, citations[i]) := Evidence(source, citations[i])]
  {
    assert citations[..i + 1][..i] == citations[..i];
  }

  /** A free key adds its row. */
  lemma EvidenceAdded(id: Id, citations: seq<Citation>, source: Id, evidence: map<Id, Evidence>, i: nat)
    requires i < |citations| && Distinct(citations[..i])
    requires EvidenceRows(id, citations[..i], source).Keys !! evidence.Keys
    requires EvidenceId(id, citations[i]) !in evidence && EvidenceId(id, citations[i]) !in EvidenceRows(id, citations[..i], source)
    ensures Distinct(citations[..i + 1]) && EvidenceRows(id, citations[..i + 1], source).Keys !! evidence.Keys
    ensures evidence + EvidenceRows(id, citations[..i + 1], source)
            == (evidence + EvidenceRows(id, citations[..i], source))[EvidenceId(id, citations[i]) := Evidence(source, citations[i])]
  {
    EvidenceRowsHold(id, citations[..i], source);
    DistinctOneMore(citations, i);
    RowsOneMore(id, citations, source, evidence, i);
  }
}
