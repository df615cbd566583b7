/** What each call on a recording answers and writes, case by case. */
module MinutesCalls {
  import opened Options
  import opened Texts
  import opened MeetingMinutes
  import opened MinutesGuarantees

  // ---------- attempts ----------

  /** The last attempt of a processor. */
  predicate IsLatest(attempts: seq<Attempt>, p: Processor, i: nat) {
    i < |attempts| && attempts[i].processor == p && forall j :: i < j < |attempts| ==> attempts[j].processor != p
  }

  lemma LatestStep(attempts: seq<Attempt>, p: Processor)
    requires Numbered(attempts) && attempts != []
    ensures var last := attempts[|attempts| - 1];
            LatestAttempt(attempts, p) == if last.processor == p then Some(last) else LatestAttempt(attempts[..|attempts| - 1], p)
  {
    FrontNumbered(attempts);
    LatestIsHighest(attempts[..|attempts| - 1], p);
  }

  /** With attempts numbered as every run keeps them, the latest by number is the last. */
  lemma {:induction false} LatestIsLastOfItsKind(attempts: seq<Attempt>, p: Processor, i: nat)
    requires Numbered(attempts) && IsLatest(attempts, p, i)
    ensures LatestAttempt(attempts, p) == Some(attempts[i])
  {
    LatestStep(attempts, p);
    FrontNumbered(attempts);
    if i < |attempts| - 1 { LatestIsLastOfItsKind(attempts[..|attempts| - 1], p, i); }
  }

  lemma {:induction false} NoneOfItsKind(attempts: seq<Attempt>, p: Processor)
    requires forall i :: 0 <= i < |attempts| ==> attempts[i].processor != p
    ensures LatestAttempt(attempts, p) == None
  {
    if attempts != [] { NoneOfItsKind(attempts[..|attempts| - 1], p); }
  }

  lemma FrontNumbered(attempts: seq<Attempt>)
    requires Numbered(attempts) && attempts != []
    ensures Numbered(attempts[..|attempts| - 1])
  {
    var front := attempts[..|attempts| - 1];
    assert forall i :: 0 <= i < |front| ==> front[..i] == attempts[..i] && front[i] == attempts[i];
  }

  /** One attempt more, with the status the call ended in, or under way if the call did not end. */
  predicate OneAttemptMore(r: Recording, after: Recording, p: Processor, outcome: Outcome) {
    && |after.attempts| == |r.attempts| + 1 && after.attempts[..|r.attempts|] == r.attempts
    && after.attempts[|r.attempts|].processor == p
    && match outcome
       case Ended(status) => after.attempts[|r.attempts|].status == status
       case Raised => after.attempts[|r.attempts|].status == Processing
       case _ => false
  }

  /** Only blanks. */
  predicate Blank(space: char -> bool, s: string) {
    forall i :: 0 <= i < |s| ==> space(s[i])
  }

  lemma {:induction false} BlankStripsToNothing(space: char -> bool, s: string)
    ensures Strip(space, s) == "" <==> Blank(space, s)
  {
    BlankDropsLeft(space, s);
    var rest := DropLeft(space, s);
    DropLeftBare(space, s);
    if rest != "" { KeepsFirst(space, rest); }
  }

  lemma {:induction false} BlankDropsLeft(space: char -> bool, s: string)
    ensures DropLeft(space, s) == "" <==> Blank(space, s)
  {
    if s != "" { BlankDropsLeft(space, s[1..]); }
  }

  lemma {:induction false} KeepsFirst(space: char -> bool, s: string)
    requires s != "" && !space(s[0])
    ensures DropRight(space, s) != ""
  {
    if space(s[|s| - 1]) { KeepsFirst(space, s[..|s| - 1]); }
  }

  // ---------- transcribing ----------

  /** The latest transcription attempt has ended, one way or another. */
  predicate HasEnded(r: Recording) {
    var latest := LatestAttempt(r.attempts, Transcription);
    latest.Some? && (latest.value.status == Ready || latest.value.status == Blocked || latest.value.status == FailedRetryable)
  }

  /** What a transcription call answers, by what it finds and what is heard. */
  lemma TranscribeAnswer(space: char -> bool, r: Recording, force: bool, heard: Recognised)
    requires Sound(r)
    ensures var (after, outcome) := Transcribe(space, r, force, heard);
            if !force && HasEnded(r) then outcome == Unchanged && after == r
            else
              && OneAttemptMore(r, after, Transcription, outcome)
              && outcome == match heard
                            case Dies => Raised
                            case Fails(retryable) => Ended(if retryable then FailedRetryable else Blocked)
                            case Heard(text) => Ended(if Blank(space, text) then FailedRetryable else Ready)
  {
    if heard.Heard? {
      BlankStripsToNothing(space, heard.text);
      TranscriptionAlwaysStores(r, Strip(space, heard.text));
    }
  }

  /** Exactly when a transcription is stored, and what is stored. */
  lemma TranscribeReadyIff(space: char -> bool, r: Recording, force: bool, heard: Recognised)
    requires Sound(r)
    ensures var (after, outcome) := Transcribe(space, r, force, heard);
            && (outcome == Ended(Ready) <==> (force || !HasEnded(r)) && heard.Heard? && !Blank(space, heard.text))
            && (outcome != Ended(Ready) ==> SameBooks(after, r) && after.files == r.files)
            && (outcome == Ended(Ready) ==>
                  var n, text := |r.transcriptions|, Strip(space, heard.text);
                  && |after.transcriptions| == n + 1 && after.transcriptions[..n] == r.transcriptions
                  && after.transcriptions[n].version == n + 1 && after.transcriptions[n].hash == Hash(text)
                  && after.transcriptions[n].supersedes == r.current && after.current == Some(after.transcriptions[n].id)
                  && after.files == r.files[TranscriptFile(n + 1) := text])
  {
    TranscribeAnswer(space, r, force, heard);
    TranscribeBooks(space, r, force, heard);
    if heard.Heard? { TranscriptionExtendsChain(r, Strip(space, heard.text)); LatestIsLast(r.transcriptions); }
  }

  predicate Unforced(op: Op) {
    op.TranscribeOp? ==> !op.force
  }

  lemma DraftLeavesLatest(space: char -> bool, r: Recording, call: DraftCall)
    requires Sound(r)
    ensures LatestAttempt(CreateDraft(space, r, call).0.attempts, Transcription) == LatestAttempt(r.attempts, Transcription)
  {
    DraftAttempts(space, r, call);
    var after := CreateDraft(space, r, call).0.attempts;
    if after != r.attempts { assert after[..|after| - 1] == r.attempts; }
  }

  lemma StepLeavesEnded(space: char -> bool, r: Recording, op: Op)
    requires Sound(r) && HasEnded(r) && Unforced(op)
    ensures HasEnded(Step(space, r, op).0)
    ensures Step(space, r, op).0.transcriptions == r.transcriptions && Step(space, r, op).0.current == r.current
    ensures op.TranscribeOp? ==> Step(space, r, op) == (r, Unchanged)
  {
    match op {
      case TranscribeOp(_, heard) => TranscribeAnswer(space, r, false, heard);
      case DraftOp(call) =>
        DraftLeavesLatest(space, r, call);
        DraftBooks(space, r, call);
      case PublishOp(cloudVersion) => PublicationAppends(r, cloudVersion);
      case Overwrite(_, _) =>
      case Delete(_) =>
    }
  }

  /** After a call that ended, no run of calls that are not forced, drafts and publications among them,
      changes the transcriptions, and each further unforced transcription call does nothing at all. */
  lemma {:induction false} UnforcedTranscribesOnce(space: char -> bool, r: Recording, ops: seq<Op>, heard: Recognised)
    requires Sound(r) && HasEnded(r) && forall i :: 0 <= i < |ops| ==> Unforced(ops[i])
    ensures var later := Run(space, r, ops);
            && Sound(later) && HasEnded(later)
            && later.transcriptions == r.transcriptions && later.current == r.current
            && Transcribe(space, later, false, heard) == (later, Unchanged)
  {
    if ops != [] {
      var front := ops[..|ops| - 1];
      UnforcedTranscribesOnce(space, r, front, heard);
      StepLeavesEnded(space, Run(space, r, front), ops[|ops| - 1]);
      StepKeepsSound(space, Run(space, r, front), ops[|ops| - 1]);
    }
    TranscribeAnswer(space, Run(space, r, ops), false, heard);
  }

  /** A call that ended has ended. */
  lemma EndedHasEnded(space: char -> bool, r: Recording, force: bool, heard: Recognised)
    requires Sound(r) && Transcribe(space, r, force, heard).1.Ended?
    ensures Sound(Transcribe(space, r, force, heard).0) && HasEnded(Transcribe(space, r, force, heard).0)
  {
    var after := Transcribe(space, r, force, heard).0;
    TranscribeAnswer(space, r, force, heard);
    TranscribeKeepsSound(space, r, force, heard);
    LatestIsLastOfItsKind(after.attempts, Transcription, |r.attempts|);
  }

  // ---------- drafting ----------

  lemma ConcludingAnswer(space: char -> bool, r: Recording, call: DraftCall, transcript: string, source: Id)
    requires Source(space, call).Wrote?
    ensures var (after, outcome) := ConcludeDraft(space, r, call, transcript, source);
            (outcome == Ended(Ready) || outcome == Raised) && OneAttemptMore(r, after, Minutes, outcome)
  {
  }

  lemma SourceAnswer(space: char -> bool, call: DraftCall)
    ensures Source(space, call) == if Blank(space, call.manual) then call.written else Wrote(Strip(space, call.manual), call.citations)
  {
    BlankStripsToNothing(space, call.manual);
  }

  /** What a draft call answers, by what it finds, what the caller wrote and what the writer does. */
  lemma DraftAnswer(space: char -> bool, r: Recording, call: DraftCall)
    requires Sound(r)
    ensures var (after, outcome) := CreateDraft(space, r, call);
            var latest := LatestAttempt(r.attempts, Minutes);
            if !call.force && latest.Some? && latest.value.status == Ready then outcome == Unchanged && after == r
            else
              && OneAttemptMore(r, after, Minutes, outcome)
              && if ReadTranscript(space, r).None? then outcome == Ended(Blocked)
                 else if !Blank(space, call.manual) then outcome == Ended(Ready) || outcome == Raised
                 else
                   match call.written
                   case WriterDies => outcome == Raised
                   case WriterFails(retryable) => outcome == Ended(if retryable then FailedRetryable else Blocked)
                   case Wrote(_, _) => outcome == Ended(Ready) || outcome == Raised
  {
    SourceAnswer(space, call);
    if ReadTranscript(space, r).Some? && Source(space, call).Wrote? {
      ConcludingAnswer(space, r, call, ReadTranscript(space, r).value, CurrentTranscription(r).value.id);
    }
  }

  /** The citations a draft is stored with: the caller's, or else the writer's if the writer wrote it. */
  function Given(space: char -> bool, call: DraftCall): seq<Citation> {
    if call.citations != [] then call.citations
    else if Blank(space, call.manual) && call.written.Wrote? then call.written.citations else []
  }

  /** Given none, one citation of the whole transcript. */
  predicate CitedAs(space: char -> bool, given: seq<Citation>, transcript: string, stored: seq<Citation>) {
    if given == [] then stored == [Citation(CharRange, Strip(space, "char:0-" + Decimal(|transcript|)))]
    else |stored| == |given| && forall i :: 0 <= i < |given| ==> stored[i] == Citation(given[i].kind, Strip(space, given[i].locator))
  }

  lemma CitationsAreGiven(space: char -> bool, call: DraftCall, transcript: string)
    requires Source(space, call).Wrote?
    ensures CitedAs(space, Given(space, call), transcript, DraftCitations(space, call, transcript))
  {
    BlankStripsToNothing(space, call.manual);
  }

  /** A locator that is not blank, of one of four kinds. */
  predicate Locates(c: Citation) {
    c.locator != "" && (c.kind == CharRange || c.kind == Paragraph || c.kind == Segment || c.kind == TimeRange)
  }

  lemma TextGivenIff(space: char -> bool, call: DraftCall)
    ensures Source(space, call).Wrote? && DraftBody(space, call) != ""
            <==> !Blank(space, call.manual) || (call.written.Wrote? && !Blank(space, call.written.body))
  {
    SourceAnswer(space, call);
    BlankStripsToNothing(space, call.manual);
    StripTwice(space, call.manual);
    if call.written.Wrote? { BlankStripsToNothing(space, call.written.body); }
  }

  /** Exactly when a draft is stored, with its conditions and citations spelt out. */
  lemma DraftStoredIff(space: char -> bool, r: Recording, call: DraftCall, citations: seq<Citation>)
    requires Sound(r)
    requires ReadTranscript(space, r).Some? ==> CitedAs(space, Given(space, call), ReadTranscript(space, r).value, citations)
    ensures var latest := LatestAttempt(r.attempts, Minutes);
            CreateDraft(space, r, call).1 == Ended(Ready)
            <==> && (call.force || latest.None? || latest.value.status != Ready)
                 && ReadTranscript(space, r).Some?
                 && (!Blank(space, call.manual) || (call.written.Wrote? && !Blank(space, call.written.body)))
                 && (forall i :: 0 <= i < |citations| ==> Locates(citations[i]))
                 && (forall i, j :: 0 <= i < j < |citations| ==> citations[i] != citations[j])
  {
    DraftReadyIff(space, r, call);
    TextGivenIff(space, call);
    if ReadTranscript(space, r).Some? && Source(space, call).Wrote? {
      CitationsAreGiven(space, call, ReadTranscript(space, r).value);
      SameCitations(space, Given(space, call), ReadTranscript(space, r).value, citations,
                    DraftCitations(space, call, ReadTranscript(space, r).value));
    }
  }

  lemma StripTwice(space: char -> bool, s: string)
    ensures Strip(space, Strip(space, s)) == Strip(space, s)
  {
    StripIsTrimmed(space, s);
    StripIsTrimmed(space, Strip(space, s));
  }

  /** What a stored draft writes as the next version: the caller's own text if it is not blank, else
      the writer's. */
  lemma StoredDraftSays(space: char -> bool, r: Recording, call: DraftCall)
    requires Sound(r) && CreateDraft(space, r, call).1 == Ended(Ready)
    ensures call.written.Wrote? || !Blank(space, call.manual)
    ensures var after, n := CreateDraft(space, r, call).0, |r.minutes|;
            var text := Strip(space, if Blank(space, call.manual) then call.written.body else call.manual);
            && after.document == Some(Document(n + 1, Draft))
            && after.minutes == r.minutes + [MinutesRow(MinutesId(n + 1), n + 1, Hash(text), ManifestId(MinutesId(n + 1)), Draft)]
            && after.files == r.files[MinutesFile(n + 1) := text]
            && after.transcriptions == r.transcriptions && after.current == r.current
  {
    SourceAnswer(space, call);
    StripTwice(space, call.manual);
    DraftBooks(space, r, call);
    DraftFiles(space, r, call);
  }

  predicate IsEvidence(r: Recording, id: Id, source: Id, citation: Citation) {
    id in r.evidence && r.evidence[id] == Evidence(source, citation)
  }

  predicate Cites(r: Recording, manifest: Id, source: Id, citations: seq<Citation>) {
    && manifest in r.manifests && |r.manifests[manifest].evidence| == |citations|
    && forall i :: 0 <= i < |citations| ==> IsEvidence(r, r.manifests[manifest].evidence[i], source, citations[i])
  }

  lemma WrittenDraftCites(r: Recording, body: string, citations: seq<Citation>, source: Id)
    ensures Cites(WithDraft(r, body, citations, source), ManifestId(MinutesId(NextMinutes(r))), source, citations)
  {
    EvidenceRowsHold(MinutesId(NextMinutes(r)), citations, source);
  }

  lemma StoredIsWritten(space: char -> bool, r: Recording, call: DraftCall)
    requires Sound(r) && CreateDraft(space, r, call).1 == Ended(Ready)
    ensures Source(space, call).Wrote? && ReadTranscript(space, r).Some? && Some(DraftSource(space, r)) == r.current
    ensures SameBooks(CreateDraft(space, r, call).0, DraftedBooks(space, r, call)) && NextMinutes(r) == |r.minutes| + 1
  {
    DraftBooks(space, r, call);
    DraftSourceIsLast(space, r);
  }

  /** Its evidence: one row per citation, in order, each on the current transcription. */
  lemma StoredDraftCites(space: char -> bool, r: Recording, call: DraftCall, stored: seq<Citation>)
    requires Sound(r) && CreateDraft(space, r, call).1 == Ended(Ready)
    requires ReadTranscript(space, r).Some? && CitedAs(space, Given(space, call), ReadTranscript(space, r).value, stored)
    ensures r.current.Some? && Cites(CreateDraft(space, r, call).0, ManifestId(MinutesId(|r.minutes| + 1)), r.current.value, stored)
  {
    var transcript := ReadTranscript(space, r).value;
    StoredIsWritten(space, r, call);
    CitationsAreGiven(space, call, transcript);
    SameCitations(space, Given(space, call), transcript, stored, DraftCitations(space, call, transcript));
    WrittenDraftCites(r, DraftBody(space, call), stored, DraftSource(space, r));
  }

  lemma SameCitations(space: char -> bool, given: seq<Citation>, transcript: string, a: seq<Citation>, b: seq<Citation>)
    requires CitedAs(space, given, transcript, a) && CitedAs(space, given, transcript, b)
    ensures a == b
  {
  }

  lemma DraftFiles(space: char -> bool, r: Recording, call: DraftCall)
    requires BooksSound(r) && CreateDraft(space, r, call).1 == Ended(Ready)
    ensures Source(space, call).Wrote? && CreateDraft(space, r, call).0.files == r.files[MinutesFile(NextMinutes(r)) := DraftBody(space, call)]
  {
    DraftBooks(space, r, call);
  }

  lemma ConcludingFiles(space: char -> bool, r: Recording, call: DraftCall, transcript: string, source: Id)
    requires Source(space, call).Wrote? && ConcludeDraft(space, r, call, transcript, source).1 != Ended(Ready)
    ensures var after := ConcludeDraft(space, r, call, transcript, source).0;
            SameBooks(after, r) && (after.files == r.files || after.files == r.files - {MinutesFile(NextMinutes(r))})
  {
  }

  /** A draft that is not stored leaves the books alone, and no file but one of the version it would
      have been is gone. */
  lemma UnstoredDraftLeaves(space: char -> bool, r: Recording, call: DraftCall)
    requires Sound(r) && CreateDraft(space, r, call).1 != Ended(Ready)
    ensures var after := CreateDraft(space, r, call).0;
            SameBooks(after, r) && (after.files == r.files || after.files == r.files - {MinutesFile(|r.minutes| + 1)})
  {
    if ReadTranscript(space, r).Some? && Source(space, call).Wrote? && MayDraft(r, call) {
      ConcludingFiles(space, r, call, ReadTranscript(space, r).value, CurrentTranscription(r).value.id);
    }
  }

  /** Reading a decimal number, digit by digit. */
  function ReadDecimal(digits: string): Option<nat> {
    if digits == "" then Some(0)
    else
      var last := digits[|digits| - 1] as int - '0' as int;
      match ReadDecimal(digits[..|digits| - 1])
      case None => None
      case Some(front) => if 0 <= last <= 9 then Some(10 * front + last) else None
  }

  /** The length in the default citation reads back as itself. */
  lemma {:induction false} DecimalReadsBack(n: nat)
    ensures Decimal(n) != "" && ReadDecimal(Decimal(n)) == Some(n)
  {
    if n < 10 {
      assert Decimal(n)[..0] == "";
    } else {
      DecimalReadsBack(n / 10);
      var last := [('0' as int + n % 10) as char];
      assert Decimal(n % 10) == last && Decimal(n) == Decimal(n / 10) + last;
      assert Decimal(n)[..|Decimal(n)| - 1] == Decimal(n / 10);
    }
  }

  // ---------- reading and publishing ----------

  predicate ReadsBack(space: char -> bool, r: Recording, path: Path, hash: Hash) {
    path in r.files && ReadBack(space, r.files[path]) != "" && Hash(ReadBack(space, r.files[path])) == hash
  }

  /** The transcript to draft from is the last version's, if its file reads back with its hash. */
  lemma TranscriptReadsIff(space: char -> bool, r: Recording)
    requires Sound(r)
    ensures var n := |r.transcriptions|;
            if n > 0 && ReadsBack(space, r, TranscriptFile(n), r.transcriptions[n - 1].hash)
            then ReadTranscript(space, r) == Some(ReadBack(space, r.files[TranscriptFile(n)]))
            else ReadTranscript(space, r) == None
  {
  }

  /** The payload is the current version's: its text, its hash, and all its evidence in order. */
  predicate Carried(space: char -> bool, r: Recording, row: MinutesRow, payload: Payload)
    requires payload.Publishable? && row.manifest in r.manifests
  {
    var manifest := r.manifests[row.manifest];
    && Some(payload.transcription) == r.current && payload.hash == row.hash
    && manifest.path in r.files && payload.body == ReadBack(space, r.files[manifest.path])
    && |payload.evidence| == |manifest.evidence|
    && forall i :: 0 <= i < |manifest.evidence| ==> manifest.evidence[i] in r.evidence && payload.evidence[i] == r.evidence[manifest.evidence[i]]
  }

  /** What asking for a payload answers, in every sound state. */
  lemma PayloadAnswer(space: char -> bool, r: Recording)
    requires Sound(r)
    ensures var payload := PublicationPayload(space, r);
            if r.transcriptions == [] then payload == TranscriptionNotReady
            else if r.minutes == [] then payload == MinutesMissing
            else
              var row := r.minutes[|r.minutes| - 1];
              row.manifest in r.manifests
              && if !ReadsBack(space, r, r.manifests[row.manifest].path, row.hash) then payload == IntegrityFailed
                 else if AnchorOf(r, row.manifest) != r.current then payload == EvidenceMissing
                 else payload.Publishable? && Carried(space, r, row, payload)
  {
    if r.minutes != [] {
      assert Anchored(r, r.minutes[|r.minutes| - 1].manifest);
      if r.transcriptions != [] && AnchorOf(r, r.minutes[|r.minutes| - 1].manifest) == r.current { PublishableIfReadsBack(space, r); }
    }
  }

  /** What recording a publication answers: it is known already, there is nothing to mark, or it is
      recorded as one more version with the content of the current one. */
  lemma PublicationAnswer(r: Recording, cloudVersion: int)
    requires Sound(r)
    ensures var (after, outcome) := RecordPublication(r, cloudVersion);
            var known := exists i :: 0 <= i < |r.minutes| && r.minutes[i].id == PublishedId(cloudVersion);
            && (outcome == Unchanged <==> known) && (outcome == Missing <==> r.minutes == [])
            && (outcome != Recorded ==> after == r)
            && (outcome == Recorded <==> !known && r.minutes != [])
            && (outcome == Recorded ==>
                  var n, last := |r.minutes|, r.minutes[|r.minutes| - 1];
                  && after.document == Some(Document(n + 1, Published))
                  && after.minutes == r.minutes + [MinutesRow(PublishedId(cloudVersion), n + 1, last.hash, last.manifest, Published)])
  {
    PublicationAppends(r, cloudVersion);
  }
}
