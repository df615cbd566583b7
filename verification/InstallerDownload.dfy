/** The resumable installer download: a temporary file that is continued or restarted by what the
    server answers, verified, and only then put in place of the target. */
module InstallerDownload {
  import opened Options

  type Bytes = seq<bv8>

  /** SHA-512, injective. */
  datatype Digest = Digest(of: Bytes)

  /** The official manifest; size 0 when it names none. */
  datatype Manifest = Manifest(size: nat, sha512: Digest)

  datatype Disk = Disk(temporary: Option<Bytes>, target: Option<Bytes>)

  /** A body as it arrives: its chunks, and whether reading or writing it fails after them. */
  datatype Stream = Stream(chunks: seq<Bytes>, failed: bool)

  /** `rangeStart` is the first byte named by Content-Range, or -1. */
  datatype Response = NoResponse | Response(status: nat, rangeStart: int, body: Option<Stream>)

  /** Where the process dies, if it does. */
  datatype Cut = Never | BeforeWrite | AfterWrite | AfterTargetRemoved

  datatype Outcome = Ready | FailedDownload | Died

  function Joined(chunks: seq<Bytes>): Bytes {
    if chunks == [] then [] else Joined(chunks[..|chunks| - 1]) + chunks[|chunks| - 1]
  }

  predicate Usable(r: Response) {
    r.Response? && 200 <= r.status < 300 && r.body.Some?
  }

  /** What is left to continue from: a temporary file that is already too long is thrown away. */
  function Partial(m: Manifest, disk: Disk): (Disk, nat) {
    var size := if disk.temporary.Some? then |disk.temporary.value| else 0;
    if size > 0 && m.size > 0 && size >= m.size then (disk.(temporary := None), 0) else (disk, size)
  }

  /** The response that is written, and how many bytes it continues: 416 and a 206 that starts
      elsewhere discard the temporary file and ask again without a range. */
  datatype Answer = Refused(disk: Disk) | Accepted(disk: Disk, base: Bytes, body: Stream)

  function Restarted(disk: Disk, second: Response): Answer {
    var clear := disk.(temporary := None);
    if Usable(second) then Accepted(clear, [], second.body.value) else Refused(clear)
  }

  function Answered(disk: Disk, partial: nat, first: Response, second: Response): Answer
    requires partial > 0 ==> disk.temporary.Some?
  {
    if partial > 0 && first.Response? && first.status == 416 then Restarted(disk, second)
    else if !Usable(first) then Refused(disk)
    else if partial > 0 && first.status == 206 then
      if first.rangeStart == partial then Accepted(disk, disk.temporary.value, first.body.value) else Restarted(disk, second)
    else if partial > 0 then Accepted(disk.(temporary := None), [], first.body.value)
    else Accepted(disk, [], first.body.value)
  }

  predicate Genuine(m: Manifest, bytes: Bytes) {
    (m.size > 0 ==> |bytes| == m.size) && Digest(bytes) == m.sha512
  }

  /** The checks on the finished temporary file, then the replacement. */
  function Verified(m: Manifest, disk: Disk, bytes: Bytes, cut: Cut): (Disk, Outcome) {
    if m.size > 0 && |bytes| != m.size then (disk, FailedDownload)
    else if Digest(bytes) != m.sha512 then (disk.(temporary := None), FailedDownload)
    else if cut == AfterTargetRemoved then (disk.(target := None), Died)
    else (Disk(None, Some(bytes)), Ready)
  }

  /** `downloadInstallerOnce`, given the answers to its one or two requests. */
  function Attempt(m: Manifest, disk: Disk, first: Response, second: Response, cut: Cut): (Disk, Outcome) {
    var (kept, partial) := Partial(m, disk);
    match Answered(kept, partial, first, second)
    case Refused(left) => (left, FailedDownload)
    case Accepted(left, base, body) =>
      if cut == BeforeWrite then (left, Died)
      else
        var bytes := base + Joined(body.chunks);
        var written := left.(temporary := Some(bytes));
        if body.failed then (written, FailedDownload)
        else if cut == AfterWrite then (written, Died)
        else Verified(m, written, bytes, cut)
  }

  datatype Try = Try(first: Response, second: Response, cut: Cut)

  function Run(m: Manifest, disk: Disk, tries: seq<Try>): Disk {
    if tries == [] then disk
    else
      var last := tries[|tries| - 1];
      Attempt(m, Run(m, disk, tries[..|tries| - 1]), last.first, last.second, last.cut).0
  }

  // ---------- whatever the server does ----------

  /** One attempt replaces the target only by bytes of the manifest's size and digest, and reports
      readiness exactly when it did; a crash between the removal and the rename leaves those bytes in
      the temporary file. */
  lemma TargetReplacedOnlyByGenuine(m: Manifest, disk: Disk, first: Response, second: Response, cut: Cut)
    ensures var (after, outcome) := Attempt(m, disk, first, second, cut);
            match outcome
            case Ready => after.temporary == None && after.target.Some? && Genuine(m, after.target.value)
            case FailedDownload => after.target == disk.target
            case Died => after.target == disk.target
                         || (after.target == None && after.temporary.Some? && Genuine(m, after.temporary.value))
  {
  }

  /** Over any run of attempts, answers, early ends and crashes, the target is what it was, missing,
      or genuine. */
  lemma {:induction false} TargetStaysGenuine(m: Manifest, disk: Disk, tries: seq<Try>)
    ensures var after := Run(m, disk, tries).target;
            after == disk.target || after == None || Genuine(m, after.value)
  {
    if tries != [] {
      var last := tries[|tries| - 1];
      TargetStaysGenuine(m, disk, tries[..|tries| - 1]);
      TargetReplacedOnlyByGenuine(m, Run(m, disk, tries[..|tries| - 1]), last.first, last.second, last.cut);
    }
  }

  // ---------- an honest server ----------

  /** The answers section 14.2 of RFC 9110 allows for one fixed artifact: to a range request, the
      whole artifact, a range of it, or a refusal; without a range, the whole or a refusal. A body may
      end early. With one artifact, If-Range (section 13.1.5) only chooses among these. */
  predicate Honest(artifact: Bytes, ranged: bool, r: Response) {
    Usable(r) ==>
      if r.status == 206 then
        ranged && 0 <= r.rangeStart <= |artifact| && Serves(artifact[r.rangeStart..], r.body.value)
      else Serves(artifact, r.body.value)
  }

  /** The chunks are a prefix of the bytes. */
  predicate Serves(bytes: Bytes, body: Stream) {
    Joined(body.chunks) <= bytes
  }

  predicate HonestTry(artifact: Bytes, m: Manifest, disk: Disk, t: Try) {
    Honest(artifact, Partial(m, disk).1 > 0, t.first) && Honest(artifact, false, t.second)
  }

  predicate Resumable(artifact: Bytes, temporary: Option<Bytes>) {
    temporary == None || temporary.value <= artifact
  }

  /** Resuming keeps the temporary file a prefix of the artifact. */
  lemma AttemptKeepsPrefix(artifact: Bytes, m: Manifest, disk: Disk, t: Try)
    requires Resumable(artifact, disk.temporary) && HonestTry(artifact, m, disk, t)
    ensures Resumable(artifact, Attempt(m, disk, t.first, t.second, t.cut).0.temporary)
  {
  }

  predicate HonestRun(artifact: Bytes, m: Manifest, disk: Disk, tries: seq<Try>) {
    tries == []
    || (HonestRun(artifact, m, disk, tries[..|tries| - 1])
        && HonestTry(artifact, m, Run(m, disk, tries[..|tries| - 1]), tries[|tries| - 1]))
  }

  /** Over any run of honest 200, 206 and 416 answers, early ends, failures and crashes, the temporary
      file is always a prefix of the artifact. */
  lemma {:induction false} TemporaryStaysPrefix(artifact: Bytes, m: Manifest, disk: Disk, tries: seq<Try>)
    requires Resumable(artifact, disk.temporary) && HonestRun(artifact, m, disk, tries)
    ensures Resumable(artifact, Run(m, disk, tries).temporary)
  {
    if tries != [] {
      TemporaryStaysPrefix(artifact, m, disk, tries[..|tries| - 1]);
      AttemptKeepsPrefix(artifact, m, Run(m, disk, tries[..|tries| - 1]), tries[|tries| - 1]);
    }
  }

  /** How far an attempt got: the bytes its temporary file held when writing ended. */
  function Received(m: Manifest, disk: Disk, t: Try): Option<Bytes> {
    var (kept, partial) := Partial(m, disk);
    match Answered(kept, partial, t.first, t.second)
    case Refused(_) => None
    case Accepted(_, base, body) => if body.failed then None else Some(base + Joined(body.chunks))
  }

  /** Resuming loses nothing: with an honest server and the artifact's own manifest, an attempt that
      does not die is ready exactly when what it received, resumed part included, is as long as the
      artifact, and then the target is the artifact. */
  lemma ReadyIffComplete(artifact: Bytes, m: Manifest, disk: Disk, t: Try)
    requires Resumable(artifact, disk.temporary) && HonestTry(artifact, m, disk, t) && t.cut == Never
    requires Genuine(m, artifact)
    ensures var (after, outcome) := Attempt(m, disk, t.first, t.second, t.cut);
            var received := Received(m, disk, t);
            && (outcome == Ready <==> received.Some? && |received.value| == |artifact|)
            && (outcome == Ready ==> after.target == Some(artifact))
            && (outcome == FailedDownload && received.Some? ==> m.size > 0 ==> after.temporary == received)
  {
  }

  // ---------- what one attempt does, answer by answer ----------

  /** A success status and a body. */
  predicate Good(r: Response) {
    r.Response? && r.status >= 200 && r.status <= 299 && r.body.Some?
  }

  /** How an attempt ends that has written `bytes`: it keeps them if reading failed or the size is
      wrong, throws them away if the digest is, and otherwise puts them in place. */
  predicate Concludes(m: Manifest, target: Option<Bytes>, bytes: Bytes, failed: bool, after: Disk, outcome: Outcome) {
    if failed || (m.size > 0 && |bytes| != m.size) then outcome == FailedDownload && after == Disk(Some(bytes), target)
    else if m.sha512 != Digest(bytes) then outcome == FailedDownload && after == Disk(None, target)
    else outcome == Ready && after == Disk(None, Some(bytes))
  }

  /** There is something to continue: bytes, and fewer than the manifest's size if it names one. */
  predicate Continues(m: Manifest, disk: Disk) {
    disk.temporary.Some? && |disk.temporary.value| > 0 && (m.size > 0 ==> |disk.temporary.value| < m.size)
  }

  /** One attempt, by what is there and what the server answers: a range that starts where the file
      ends is appended; a refused or different range is dropped with the file and asked for again
      whole; a whole body starts afresh; anything else leaves what there was to continue. */
  lemma AttemptByAnswer(m: Manifest, disk: Disk, first: Response, second: Response)
    ensures var (after, outcome) := Attempt(m, disk, first, second, Never);
            var continues := Continues(m, disk);
            var refused := first.Response? && first.status == 416;
            var ranged := Good(first) && first.status == 206;
            if continues && ranged && first.rangeStart == |disk.temporary.value| then
              Concludes(m, disk.target, disk.temporary.value + Joined(first.body.value.chunks), first.body.value.failed, after, outcome)
            else if continues && (refused || ranged) then
              if Good(second) then Concludes(m, disk.target, Joined(second.body.value.chunks), second.body.value.failed, after, outcome)
              else outcome == FailedDownload && after == Disk(None, disk.target)
            else if Good(first) then
              Concludes(m, disk.target, Joined(first.body.value.chunks), first.body.value.failed, after, outcome)
            else
              && outcome == FailedDownload && after.target == disk.target
              && (continues ==> after.temporary == disk.temporary)
              && (after.temporary == disk.temporary || (after.temporary == None && m.size > 0 && |disk.temporary.value| >= m.size))
  {
    assert forall bytes: Bytes :: [] + bytes == bytes;
  }

  /** Where a crash leaves an attempt that received a whole body: after writing, the bytes are in the
      temporary file; with the target taken away they are there too, if they are genuine; and a crash
      that comes too late changes nothing. */
  lemma CrashLeaves(m: Manifest, disk: Disk, first: Response, second: Response, cut: Cut)
    requires Received(m, disk, Try(first, second, cut)).Some?
    ensures var received := Received(m, disk, Try(first, second, cut));
            var (after, outcome) := Attempt(m, disk, first, second, cut);
            match cut
            case Never => true
            case BeforeWrite => outcome == Died && after.target == disk.target && (after.temporary == None || after.temporary == disk.temporary)
            case AfterWrite => outcome == Died && after == Disk(received, disk.target)
            case AfterTargetRemoved =>
              if Genuine(m, received.value) then outcome == Died && after == Disk(received, None)
              else (after, outcome) == Attempt(m, disk, first, second, Never)
  {
  }

  // ---------- a temporary file of something else ----------

  /** A temporary file left by another installer of the same name is resumed like any other; when the
      mixture then fails its digest, it is removed, and the next attempt starts from nothing. */
  lemma MixtureHeals(m: Manifest, disk: Disk, t: Try)
    requires t.cut == Never && Received(m, disk, t).Some?
    requires m.size == 0 || |Received(m, disk, t).value| == m.size
    requires Digest(Received(m, disk, t).value) != m.sha512
    ensures var (after, outcome) := Attempt(m, disk, t.first, t.second, t.cut);
            outcome == FailedDownload && after == disk.(temporary := None) && Partial(m, after) == (after, 0)
  {
  }

  // ---------- as it runs ----------

  class Downloader {
    var temporary: Option<Bytes>
    var target: Option<Bytes>

    constructor (disk: Disk)
      ensures Files() == disk
    {
      temporary, target := disk.temporary, disk.target;
    }

    function Files(): Disk
      reads this
    {
      Disk(temporary, target)
    }

    /** Chunk by chunk into the temporary file, which is appended to or started afresh. */
    method WriteStream(base: Bytes, body: Stream)
      modifies this`temporary
      ensures temporary == Some(base + Joined(body.chunks))
    {
      temporary := Some(base);
      var i := 0;
      assert base + Joined(body.chunks[..0]) == base;
      while i < |body.chunks|
        invariant i <= |body.chunks| && temporary == Some(base + Joined(body.chunks[..i]))
      {
        assert body.chunks[..i + 1][..i] == body.chunks[..i];
        assert base + Joined(body.chunks[..i]) + body.chunks[i] == base + (Joined(body.chunks[..i]) + body.chunks[i]);
        temporary := Some(temporary.value + body.chunks[i]);
        i := i + 1;
      }
      assert body.chunks[..i] == body.chunks;
    }

    /** `downloadInstallerOnce` without a crash. */
    method DownloadOnce(m: Manifest, first: Response, second: Response) returns (outcome: Outcome)
      modifies this
      ensures (Files(), outcome) == Attempt(m, old(Files()), first, second, Never)
    {
      var partialSize := if temporary.Some? then |temporary.value| else 0;
      if partialSize > 0 && m.size > 0 && partialSize >= m.size {
        temporary := None;
        partialSize := 0;
      }
      var response := first;
      if partialSize > 0 && response.Response? && response.status == 416 {
        temporary := None;
        partialSize := 0;
        response := second;
      }
      outcome := FailedDownload;
      if Usable(response) {
        if partialSize > 0 && response.status == 206 && response.rangeStart != partialSize {
          temporary := None;
          partialSize := 0;
          response := second;
        }
        if Usable(response) {
          var resumed := partialSize > 0 && response.status == 206 && response.rangeStart == partialSize;
          var base := if resumed then temporary.value else [];
          WriteStream(base, response.body.value);
          if !response.body.value.failed { outcome := VerifyAndReplace(m); }
        }
      }
    }

    method VerifyAndReplace(m: Manifest) returns (outcome: Outcome)
      requires temporary.Some?
      modifies this
      ensures (Files(), outcome) == Verified(m, old(Files()), old(temporary.value), Never)
    {
      outcome := FailedDownload;
      var bytes := temporary.value;
      if m.size == 0 || |bytes| == m.size {
        if Digest(bytes) != m.sha512 {
          temporary := None;
        } else {
          target := None;
          target, temporary := Some(bytes), None;
          outcome := Ready;
        }
      }
    }
  }
}
