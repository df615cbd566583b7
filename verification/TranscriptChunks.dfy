/** Splitting a transcript into chunks for correction, and accepting a correction only if it keeps the
    lines and speakers of its chunk. */
module TranscriptChunks {
  import opened Options

  // ---------- lines ----------

  /** `str.splitlines`: `brk` says which characters end a line; a carriage return and a line feed end
      one together. */
  function FirstBreak(brk: char -> bool, s: string): (n: nat)
    ensures n <= |s| && (forall i :: 0 <= i < n ==> !brk(s[i])) && (n < |s| ==> brk(s[n]))
  {
    if s == "" || brk(s[0]) then 0 else 1 + FirstBreak(brk, s[1..])
  }

  function BreakLength(s: string, n: nat): (r: nat)
    requires n < |s|
    ensures n + r <= |s| && r >= 1
  {
    if s[n] == '\r' && n + 1 < |s| && s[n + 1] == '\n' then 2 else 1
  }

  function LinesOf(brk: char -> bool, s: string): seq<string> {
    if s == "" then []
    else
      var n := FirstBreak(brk, s);
      if n == |s| then [s] else [s[..n]] + LinesOf(brk, s[n + BreakLength(s, n)..])
  }

  /** "\n".join */
  function JoinLines(lines: seq<string>): string {
    if lines == [] then ""
    else if |lines| == 1 then lines[0]
    else JoinLines(lines[..|lines| - 1]) + "\n" + lines[|lines| - 1]
  }

  predicate Unbroken(brk: char -> bool, line: string) {
    forall i :: 0 <= i < |line| ==> !brk(line[i])
  }

  lemma {:induction false} LinesAreUnbroken(brk: char -> bool, s: string, i: nat)
    requires i < |LinesOf(brk, s)|
    ensures Unbroken(brk, LinesOf(brk, s)[i])
  {
    var n := FirstBreak(brk, s);
    if n < |s| && i > 0 { LinesAreUnbroken(brk, s[n + BreakLength(s, n)..], i - 1); }
  }

  /** The characters of a text that end no line. */
  function Unbreaking(brk: char -> bool, s: string): string {
    if s == "" then "" else (if brk(s[0]) then "" else [s[0]]) + Unbreaking(brk, s[1..])
  }

  function Concatenated(lines: seq<string>): string {
    if lines == [] then "" else lines[0] + Concatenated(lines[1..])
  }

  lemma {:induction false} UnbreakingApart(brk: char -> bool, a: string, b: string)
    ensures Unbreaking(brk, a + b) == Unbreaking(brk, a) + Unbreaking(brk, b)
  {
    if a == "" {
      assert a + b == b;
    } else {
      UnbreakingApart(brk, a[1..], b);
      assert (a + b)[1..] == a[1..] + b;
    }
  }

  lemma {:induction false} UnbrokenStays(brk: char -> bool, line: string)
    requires Unbroken(brk, line)
    ensures Unbreaking(brk, line) == line
  {
    if line != "" { UnbrokenStays(brk, line[1..]); }
  }

  lemma BreakVanishes(brk: char -> bool, s: string, n: nat)
    requires brk('\n') && n < |s| && brk(s[n])
    ensures Unbreaking(brk, s[n..n + BreakLength(s, n)]) == ""
  {
    var ending := s[n..n + BreakLength(s, n)];
    assert ending[0] == s[n];
    if |ending| == 2 {
      assert ending[1..] == ['\n'] && ['\n'][1..] == [];
      assert Unbreaking(brk, ['\n']) == "";
    } else {
      assert ending[1..] == [];
    }
  }

  lemma UnbreakingParts(brk: char -> bool, line: string, ending: string, rest: string)
    requires Unbroken(brk, line) && Unbreaking(brk, ending) == ""
    ensures Unbreaking(brk, line + ending + rest) == line + Unbreaking(brk, rest)
  {
    UnbrokenStays(brk, line);
    UnbreakingApart(brk, line, ending);
    UnbreakingApart(brk, line + ending, rest);
  }

  lemma UnbreakingStep(brk: char -> bool, s: string, n: nat, rest: string)
    requires brk('\n') && n == FirstBreak(brk, s) < |s| && rest == s[n + BreakLength(s, n)..]
    ensures Unbreaking(brk, s) == s[..n] + Unbreaking(brk, rest)
  {
    var end := n + BreakLength(s, n);
    BreakVanishes(brk, s, n);
    InThree(s, n, end);
    UnbreakingParts(brk, s[..n], s[n..end], rest);
  }

  lemma InThree(s: string, n: nat, end: nat)
    requires n <= end <= |s|
    ensures s[..n] + s[n..end] + s[end..] == s
  {
  }

  lemma ConcatenatedStep(line: string, lines: seq<string>)
    ensures Concatenated([line] + lines) == line + Concatenated(lines)
  {
  }

  /** Splitting into lines loses nothing but the breaks. */
  lemma {:induction false} LinesHoldText(brk: char -> bool, s: string)
    requires brk('\n')
    ensures Concatenated(LinesOf(brk, s)) == Unbreaking(brk, s)
    decreases |s|
  {
    var n := FirstBreak(brk, s);
    if n == |s| {
      UnbrokenStays(brk, s);
      ConcatenatedStep(s, []);
      assert [s] + [] == [s] && s + Concatenated([]) == s;
    } else {
      var rest := s[n + BreakLength(s, n)..];
      LinesHoldText(brk, rest);
      UnbreakingStep(brk, s, n, rest);
      ConcatenatedStep(s[..n], LinesOf(brk, rest));
    }
  }

  // ---------- chunks ----------

  /** The chunks closed so far, the lines of the open one, and its counted size. */
  datatype Building = Building(closed: seq<seq<string>>, open: seq<string>, size: nat)

  function Added(b: Building, line: string): nat {
    |line| + if b.open != [] then 1 else 0
  }

  /** One line: the open chunk is closed first if the line would overflow it. */
  function PlaceLine(b: Building, line: string, target: nat): Building {
    if b.open != [] && b.size + Added(b, line) > target then Building(b.closed + [b.open], [line], Added(b, line))
    else Building(b.closed, b.open + [line], b.size + Added(b, line))
  }

  function Build(lines: seq<string>, target: nat): Building {
    if lines == [] then Building([], [], 0)
    else PlaceLine(Build(lines[..|lines| - 1], target), lines[|lines| - 1], target)
  }

  function Grouped(lines: seq<string>, target: nat): seq<seq<string>> {
    var b := Build(lines, target);
    if b.open != [] then b.closed + [b.open] else b.closed
  }

  function JoinedAll(groups: seq<seq<string>>): (r: seq<string>)
    ensures |r| == |groups| && forall i :: 0 <= i < |groups| ==> r[i] == JoinLines(groups[i])
  {
    seq(|groups|, i requires 0 <= i < |groups| => JoinLines(groups[i]))
  }

  function Chunks(brk: char -> bool, text: string, target: nat): seq<string> {
    var lines := LinesOf(brk, text);
    if lines == [] then [text] else JoinedAll(Grouped(lines, target))
  }

  function Flattened(groups: seq<seq<string>>): seq<string> {
    if groups == [] then [] else Flattened(groups[..|groups| - 1]) + groups[|groups| - 1]
  }

  predicate Filled(groups: seq<seq<string>>) {
    forall i :: 0 <= i < |groups| ==> groups[i] != []
  }

  predicate FitsTarget(group: seq<string>, target: nat) {
    |group| == 1 || |JoinLines(group)| <= target
  }

  /** The counter is the length of the open chunk, but one more once a chunk has been closed: the
      separator of the line that closed it is counted and never written. */
  predicate Counted(b: Building) {
    b.open != [] ==> b.size == |JoinLines(b.open)| + if b.closed == [] then 0 else 1
  }

  lemma FlattenedOneMore(groups: seq<seq<string>>, group: seq<string>)
    ensures Flattened(groups + [group]) == Flattened(groups) + group
  {
  }

  lemma PlaceFills(b: Building, line: string, target: nat)
    requires Filled(b.closed)
    ensures Filled(PlaceLine(b, line, target).closed) && PlaceLine(b, line, target).open != []
  {
  }

  function Placed(b: Building): seq<string> {
    Flattened(b.closed) + b.open
  }

  lemma PlaceKeepsLines(b: Building, after: Building, lines: seq<string>, line: string, target: nat)
    requires Placed(b) == lines && after == PlaceLine(b, line, target)
    ensures Placed(after) == lines + [line]
  {
    FlattenedOneMore(b.closed, b.open);
  }

  lemma {:induction false} BuildPlaces(lines: seq<string>, target: nat)
    ensures Placed(Build(lines, target)) == lines
  {
    if lines != [] {
      var front, line := lines[..|lines| - 1], lines[|lines| - 1];
      BuildPlaces(front, target);
      assert lines == front + [line];
      PlaceKeepsLines(Build(front, target), Build(lines, target), front, line, target);
    }
  }

  lemma {:induction false} BuildFills(lines: seq<string>, target: nat)
    ensures Filled(Build(lines, target).closed) && (Build(lines, target).open == [] <==> lines == [])
  {
    if lines != [] {
      BuildFills(lines[..|lines| - 1], target);
      PlaceFills(Build(lines[..|lines| - 1], target), lines[|lines| - 1], target);
    }
  }

  lemma JoinOneMore(lines: seq<string>, line: string)
    ensures |JoinLines(lines + [line])| == if lines == [] then |line| else |JoinLines(lines)| + 1 + |line|
  {
  }

  lemma {:induction false} BuildCounts(lines: seq<string>, target: nat)
    ensures var b := Build(lines, target);
            && Counted(b) && (forall i :: 0 <= i < |b.closed| ==> FitsTarget(b.closed[i], target))
            && (b.open != [] ==> |b.open| == 1 || b.size <= target)
            && (lines == [] ==> b.closed == [] && b.open == [])
  {
    if lines != [] {
      BuildCounts(lines[..|lines| - 1], target);
      JoinOneMore(Build(lines[..|lines| - 1], target).open, lines[|lines| - 1]);
      JoinOneMore([], lines[|lines| - 1]);
      assert [] + [lines[|lines| - 1]] == [lines[|lines| - 1]];
      BuildFills(lines[..|lines| - 1], target);
    }
  }

  lemma BuildFacts(lines: seq<string>, target: nat)
    ensures var b := Build(lines, target);
            && Flattened(b.closed) + b.open == lines && Filled(b.closed) && Counted(b)
            && (b.open == [] <==> lines == [])
            && (forall i :: 0 <= i < |b.closed| ==> FitsTarget(b.closed[i], target)) && (b.open != [] ==> FitsTarget(b.open, target))
  {
    BuildPlaces(lines, target);
    BuildFills(lines, target);
    BuildCounts(lines, target);
  }

  /** Joining a chunk's lines and then the chunks is joining all lines. */
  lemma {:induction false} JoinApart(front: seq<string>, back: seq<string>)
    requires front != [] && back != []
    ensures JoinLines(front + back) == JoinLines(front) + "\n" + JoinLines(back)
  {
    var last := |back| - 1;
    assert (front + back)[..|front + back| - 1] == front + back[..last];
    if last > 0 {
      JoinApart(front, back[..last]);
      assert JoinLines(front) + "\n" + JoinLines(back[..last]) + "\n" + back[last]
             == JoinLines(front) + "\n" + (JoinLines(back[..last]) + "\n" + back[last]);
    } else {
      assert front + back[..last] == front;
    }
  }

  lemma {:induction false} JoinGroups(groups: seq<seq<string>>)
    requires Filled(groups) && groups != []
    ensures Flattened(groups) != []
    ensures JoinLines(JoinedAll(groups)) == JoinLines(Flattened(groups))
  {
    var last := |groups| - 1;
    if last == 0 {
      assert Flattened(groups) == groups[0];
    } else {
      JoinGroups(groups[..last]);
      assert JoinedAll(groups)[..last] == JoinedAll(groups[..last]);
      JoinApart(Flattened(groups[..last]), groups[last]);
    }
  }

  lemma GroupedFacts(lines: seq<string>, target: nat)
    requires lines != []
    ensures var groups := Grouped(lines, target);
            groups != [] && Filled(groups) && Flattened(groups) == lines
            && forall i :: 0 <= i < |groups| ==> FitsTarget(groups[i], target)
  {
    BuildFacts(lines, target);
    var b, groups := Build(lines, target), Grouped(lines, target);
    assert groups[..|b.closed|] == b.closed;
  }

  /** Joining the chunks gives back the joined lines, and each chunk is within the target or is a
      single line. */
  lemma ChunksRoundTrip(brk: char -> bool, text: string, target: nat)
    ensures var chunks, lines := Chunks(brk, text, target), LinesOf(brk, text);
            && chunks != [] && JoinLines(chunks) == JoinLines(lines)
            && forall i :: 0 <= i < |chunks| ==> |chunks[i]| <= target || chunks[i] in lines
  {
    var lines := LinesOf(brk, text);
    if lines != [] {
      var groups := Grouped(lines, target);
      GroupedFacts(lines, target);
      JoinGroups(groups);
      forall i | 0 <= i < |groups|
        ensures |JoinLines(groups[i])| <= target || JoinLines(groups[i]) in lines
      {
        if |groups[i]| == 1 { GroupInFlattened(groups, i); }
      }
    }
  }

  lemma {:induction false} GroupInFlattened(groups: seq<seq<string>>, i: nat)
    requires i < |groups| && |groups[i]| == 1
    ensures groups[i][0] in Flattened(groups)
  {
    if i < |groups| - 1 { GroupInFlattened(groups[..|groups| - 1], i); }
  }

  /** A chunk is closed only when the next line would bring it, separator included, to within one of
      overflowing: the counter overestimates by one at most. */
  lemma ClosedWhenNearlyFull(lines: seq<string>, target: nat, line: string)
    requires |Build(lines + [line], target).closed| > |Build(lines, target).closed|
    ensures |JoinLines(Build(lines, target).open)| + 1 + |line| + 1 > target
  {
    BuildFacts(lines, target);
    assert (lines + [line])[..|lines|] == lines;
  }

  // ---------- revision ----------

  /** What is not the program's own: the speaker pattern, fence stripping, and the similarity ratio. */
  datatype Rules = Rules(brk: char -> bool, speaker: string -> Option<string>, unfence: string -> string, alike: (string, string) -> bool)

  /** The revision has between 86 and 114 hundredths of the original's length. */
  predicate SimilarLength(original: string, revised: string) {
    86 * |original| <= 100 * |revised| <= 114 * |original|
  }

  predicate SameSpeakers(speaker: string -> Option<string>, a: seq<string>, b: seq<string>)
    requires |a| == |b|
  {
    forall i :: 0 <= i < |a| ==> speaker(a[i]) == speaker(b[i])
  }

  function SafeRevision(rules: Rules, original: string, candidate: string): string {
    var revised := rules.unfence(candidate);
    var before, after := LinesOf(rules.brk, original), LinesOf(rules.brk, revised);
    if |before| != |after| then original
    else if original == "" then revised
    else if !SimilarLength(original, revised) || !rules.alike(original, revised) then original
    else if !SameSpeakers(rules.speaker, before, after) then original
    else revised
  }

  /** The speaker prefixes of a text, line by line. */
  function PrefixesOf(speaker: string -> Option<string>, lines: seq<string>): seq<string> {
    if lines == [] then []
    else PrefixesOf(speaker, lines[..|lines| - 1]) + match speaker(lines[|lines| - 1]) case None => [] case Some(p) => [p]
  }

  function Speakers(rules: Rules, text: string): seq<string> {
    PrefixesOf(rules.speaker, LinesOf(rules.brk, text))
  }

  lemma {:induction false} SameSpeakersSamePrefixes(speaker: string -> Option<string>, a: seq<string>, b: seq<string>)
    requires |a| == |b| && SameSpeakers(speaker, a, b)
    ensures PrefixesOf(speaker, a) == PrefixesOf(speaker, b)
  {
    if a != [] { SameSpeakersSamePrefixes(speaker, a[..|a| - 1], b[..|b| - 1]); }
  }

  lemma SafeRevisionKeepsSpeakers(rules: Rules, original: string, candidate: string)
    ensures Speakers(rules, SafeRevision(rules, original, candidate)) == Speakers(rules, original)
  {
    var revised := SafeRevision(rules, original, candidate);
    if revised != original {
      SameSpeakersSamePrefixes(rules.speaker, LinesOf(rules.brk, original), LinesOf(rules.brk, revised));
    }
  }

  lemma {:induction false} PrefixesApart(speaker: string -> Option<string>, a: seq<string>, b: seq<string>)
    ensures PrefixesOf(speaker, a + b) == PrefixesOf(speaker, a) + PrefixesOf(speaker, b)
  {
    if b == [] {
      assert a + b == a;
    } else {
      assert (a + b)[..|a + b| - 1] == a + b[..|b| - 1];
      PrefixesApart(speaker, a, b[..|b| - 1]);
    }
  }

  /** A line feed ends a line, and a blank line has no speaker. */
  predicate Plausible(rules: Rules) {
    rules.brk('\n') && rules.speaker("") == None
  }

  lemma BreakInJoin(brk: char -> bool, a: string, b: string)
    requires brk('\n')
    ensures FirstBreak(brk, a + "\n" + b) == FirstBreak(brk, a)
    decreases |a|
  {
    if a != "" && !brk(a[0]) {
      BreakInJoin(brk, a[1..], b);
      assert (a + "\n" + b)[1..] == a[1..] + "\n" + b;
    }
  }

  /** The first line of a text and what follows it. */
  lemma {:induction false} LinesStep(brk: char -> bool, s: string, n: nat, rest: string)
    requires n == FirstBreak(brk, s) < |s| && rest == s[n + BreakLength(s, n)..]
    ensures LinesOf(brk, s) == [s[..n]] + LinesOf(brk, rest)
  {
  }

  lemma {:induction false} SpeakersStep(rules: Rules, s: string, n: nat, rest: string)
    requires n == FirstBreak(rules.brk, s) < |s| && rest == s[n + BreakLength(s, n)..]
    ensures Speakers(rules, s) == PrefixesOf(rules.speaker, [s[..n]]) + Speakers(rules, rest)
  {
    LinesStep(rules.brk, s, n, rest);
    PrefixesApart(rules.speaker, [s[..n]], LinesOf(rules.brk, rest));
  }

  lemma {:induction false} SpeakersAfterLine(rules: Rules, a: string, b: string)
    requires Plausible(rules) && FirstBreak(rules.brk, a) == |a|
    ensures Speakers(rules, a + "\n" + b) == Speakers(rules, a) + Speakers(rules, b)
  {
    var joined := a + "\n" + b;
    BreakInJoin(rules.brk, a, b);
    assert joined[..|a|] == a && joined[|a| + 1..] == b;
    SpeakersStep(rules, joined, |a|, b);
    OneLine(rules, a);
  }

  lemma ReturnJoined(a: string, b: string, n: nat)
    requires n + 1 == |a| && a[n] == '\r'
    ensures a[n + BreakLength(a, n)..] == "" && (a + "\n" + b)[..n] == a[..n]
    ensures (a + "\n" + b)[n + BreakLength(a + "\n" + b, n)..] == b
  {
  }

  /** A text that ends in a carriage return swallows the line feed it is joined with. */
  lemma {:induction false} SpeakersAfterReturn(rules: Rules, a: string, b: string, n: nat)
    requires Plausible(rules) && n == FirstBreak(rules.brk, a) && n + 1 == |a| && a[n] == '\r'
    ensures Speakers(rules, a + "\n" + b) == Speakers(rules, a) + Speakers(rules, b)
  {
    BreakInJoin(rules.brk, a, b);
    ReturnJoined(a, b, n);
    NoSpeakers(rules);
    SpeakersPastLine(rules, a, a + "\n" + b, n, "", b, Speakers(rules, b));
  }

  lemma NoSpeakers(rules: Rules)
    ensures Speakers(rules, "") == []
  {
  }

  lemma JoinedStep(brk: char -> bool, a: string, b: string, n: nat)
    requires n < |a| && !(a[n] == '\r' && n + 1 == |a|)
    ensures (a + "\n" + b)[..n] == a[..n]
    ensures (a + "\n" + b)[n + BreakLength(a + "\n" + b, n)..] == a[n + BreakLength(a, n)..] + "\n" + b
  {
  }

  /** Two texts with the same first line differ in their speakers as what follows it does. */
  lemma {:induction false} SpeakersPastLine(rules: Rules, a: string, joined: string, n: nat, rest: string, joinedRest: string, more: seq<string>)
    requires n == FirstBreak(rules.brk, a) < |a| && rest == a[n + BreakLength(a, n)..]
    requires n == FirstBreak(rules.brk, joined) < |joined| && joinedRest == joined[n + BreakLength(joined, n)..]
    requires joined[..n] == a[..n] && Speakers(rules, joinedRest) == Speakers(rules, rest) + more
    ensures Speakers(rules, joined) == Speakers(rules, a) + more
  {
    SpeakersStep(rules, a, n, rest);
    SpeakersStep(rules, joined, n, joinedRest);
  }

  /** Joining two texts with a line feed joins their speakers, whatever line endings they carry: at
      most a blank line appears between them. */
  lemma {:induction false} SpeakersApart(rules: Rules, a: string, b: string)
    requires Plausible(rules)
    ensures Speakers(rules, a + "\n" + b) == Speakers(rules, a) + Speakers(rules, b)
    decreases |a|
  {
    var n := FirstBreak(rules.brk, a);
    if n == |a| {
      SpeakersAfterLine(rules, a, b);
    } else if a[n] == '\r' && n + 1 == |a| {
      SpeakersAfterReturn(rules, a, b, n);
    } else {
      var rest := a[n + BreakLength(a, n)..];
      SpeakersApart(rules, rest, b);
      BreakInJoin(rules.brk, a, b);
      JoinedStep(rules.brk, a, b, n);
      SpeakersPastLine(rules, a, a + "\n" + b, n, rest, rest + "\n" + b, Speakers(rules, b));
    }
  }

  lemma OneLine(rules: Rules, line: string)
    requires Plausible(rules) && Unbroken(rules.brk, line)
    ensures Speakers(rules, line) == PrefixesOf(rules.speaker, [line])
  {
  }

  /** The speakers of joined texts are those of the texts in turn. */
  function SpeakersOfAll(rules: Rules, texts: seq<string>): seq<string> {
    if texts == [] then [] else SpeakersOfAll(rules, texts[..|texts| - 1]) + Speakers(rules, texts[|texts| - 1])
  }

  lemma {:induction false} SpeakersOfJoined(rules: Rules, texts: seq<string>)
    requires Plausible(rules)
    ensures Speakers(rules, JoinLines(texts)) == SpeakersOfAll(rules, texts)
  {
    if |texts| == 1 {
      assert texts[..0] == [];
    } else if texts != [] {
      SpeakersOfJoined(rules, texts[..|texts| - 1]);
      SpeakersApart(rules, JoinLines(texts[..|texts| - 1]), texts[|texts| - 1]);
    }
  }

  lemma {:induction false} SpeakersOfLines(rules: Rules, lines: seq<string>)
    requires Plausible(rules) && forall i :: 0 <= i < |lines| ==> Unbroken(rules.brk, lines[i])
    ensures SpeakersOfAll(rules, lines) == PrefixesOf(rules.speaker, lines)
  {
    if lines != [] {
      SpeakersOfLines(rules, lines[..|lines| - 1]);
      OneLine(rules, lines[|lines| - 1]);
      assert [lines[|lines| - 1]][..0] == [];
      assert PrefixesOf(rules.speaker, [lines[|lines| - 1]]) == match rules.speaker(lines[|lines| - 1]) case None => [] case Some(p) => [p];
    }
  }

  /** Splitting into lines and joining with line feeds keeps the speakers. */
  lemma RejoinedSpeakers(rules: Rules, text: string)
    requires Plausible(rules)
    ensures Speakers(rules, JoinLines(LinesOf(rules.brk, text))) == Speakers(rules, text)
  {
    var lines := LinesOf(rules.brk, text);
    forall i | 0 <= i < |lines| ensures Unbroken(rules.brk, lines[i]) { LinesAreUnbroken(rules.brk, text, i); }
    SpeakersOfJoined(rules, lines);
    SpeakersOfLines(rules, lines);
  }

  // ---------- the whole correction ----------

  /** The chunks revised one after the other; an answer that is missing is an exception. */
  function Revised(rules: Rules, chunks: seq<string>, answers: seq<Option<string>>): Option<seq<string>>
    requires |answers| == |chunks|
  {
    if chunks == [] then Some([])
    else
      var last := |chunks| - 1;
      match Revised(rules, chunks[..last], answers[..last])
      case None => None
      case Some(earlier) =>
        match answers[last]
        case None => None
        case Some(answer) => Some(earlier + [SafeRevision(rules, chunks[last], answer)])
  }

  /** `correct_project_transcript` past its early returns: the original on any failure. */
  function Corrected(rules: Rules, transcript: string, target: nat, answers: seq<Option<string>>): string
    requires |answers| == |Chunks(rules.brk, transcript, target)|
  {
    match Revised(rules, Chunks(rules.brk, transcript, target), answers)
    case None => transcript
    case Some(texts) => JoinLines(texts)
  }

  lemma {:induction false} RevisedKeepsSpeakers(rules: Rules, chunks: seq<string>, answers: seq<Option<string>>)
    requires |answers| == |chunks| && Revised(rules, chunks, answers).Some?
    ensures |Revised(rules, chunks, answers).value| == |chunks|
    ensures SpeakersOfAll(rules, Revised(rules, chunks, answers).value) == SpeakersOfAll(rules, chunks)
  {
    if chunks != [] {
      var last := |chunks| - 1;
      RevisedKeepsSpeakers(rules, chunks[..last], answers[..last]);
      var earlier, texts := Revised(rules, chunks[..last], answers[..last]).value, Revised(rules, chunks, answers).value;
      assert texts[..last] == earlier;
      SafeRevisionKeepsSpeakers(rules, chunks[last], answers[last].value);
    }
  }

  /** Transcript structure: for every possible model output, failure included, the corrected transcript
      has the same sequence of speaker prefixes as the original. */
  lemma CorrectionKeepsSpeakers(rules: Rules, transcript: string, target: nat, answers: seq<Option<string>>)
    requires Plausible(rules) && |answers| == |Chunks(rules.brk, transcript, target)|
    ensures Speakers(rules, Corrected(rules, transcript, target, answers)) == Speakers(rules, transcript)
  {
    var chunks := Chunks(rules.brk, transcript, target);
    if Revised(rules, chunks, answers).Some? {
      RevisedKeepsSpeakers(rules, chunks, answers);
      SpeakersOfJoined(rules, Revised(rules, chunks, answers).value);
      SpeakersOfJoined(rules, chunks);
      ChunksRoundTrip(rules.brk, transcript, target);
      RejoinedSpeakers(rules, transcript);
    }
  }

  // ---------- the number of lines ----------

  /** Nothing separates the last line of the text from what a line feed joins to it: the text is not
      empty and ends in no break but a carriage return, which takes the line feed in. */
  predicate EndsInLine(brk: char -> bool, s: string) {
    s != "" && (s[|s| - 1] == '\r' || !brk(s[|s| - 1]))
  }

  /** The lines a text fills when more text is joined to it: one more than it has alone if the line
      feed of the join ends a blank line. */
  function LinesBefore(brk: char -> bool, s: string): nat {
    |LinesOf(brk, s)| + if EndsInLine(brk, s) then 0 else 1
  }

  function LinesBeforeAll(brk: char -> bool, texts: seq<string>): nat {
    if texts == [] then 0
    else LinesBeforeAll(brk, texts[..|texts| - 1]) + LinesBefore(brk, texts[|texts| - 1])
  }

  lemma {:induction false} LinesAfterLine(brk: char -> bool, a: string, b: string)
    requires brk('\n') && FirstBreak(brk, a) == |a|
    ensures |LinesOf(brk, a + "\n" + b)| == LinesBefore(brk, a) + |LinesOf(brk, b)|
  {
    var joined := a + "\n" + b;
    BreakInJoin(brk, a, b);
    assert joined[..|a|] == a && joined[|a| + 1..] == b;
    LinesStep(brk, joined, |a|, b);
  }

  lemma {:induction false} LinesAfterReturn(brk: char -> bool, a: string, b: string, n: nat)
    requires brk('\n') && n == FirstBreak(brk, a) && n + 1 == |a| && a[n] == '\r'
    ensures |LinesOf(brk, a + "\n" + b)| == LinesBefore(brk, a) + |LinesOf(brk, b)|
  {
    BreakInJoin(brk, a, b);
    ReturnJoined(a, b, n);
    LinesStep(brk, a, n, "");
    LinesStep(brk, a + "\n" + b, n, b);
  }

  lemma EndsAsItsTail(brk: char -> bool, a: string, k: nat)
    requires k < |a|
    ensures EndsInLine(brk, a) <==> EndsInLine(brk, a[k..])
  {
    assert a[k..][|a[k..]| - 1] == a[|a| - 1];
  }

  lemma EndsAsItsRest(brk: char -> bool, a: string, n: nat)
    requires brk('\n') && n == FirstBreak(brk, a) < |a| && !(a[n] == '\r' && n + 1 == |a|)
    ensures EndsInLine(brk, a) <==> EndsInLine(brk, a[n + BreakLength(a, n)..])
  {
    var k := n + BreakLength(a, n);
    if k < |a| { EndsAsItsTail(brk, a, k); } else { assert a[k..] == ""; }
  }

  /** Joining two texts with a line feed keeps their lines and adds a blank one exactly when the first
      does not end inside a line. */
  lemma {:induction false} LinesApart(brk: char -> bool, a: string, b: string)
    requires brk('\n')
    ensures |LinesOf(brk, a + "\n" + b)| == |LinesOf(brk, a)| + |LinesOf(brk, b)| + if EndsInLine(brk, a) then 0 else 1
    decreases |a|
  {
    var n := FirstBreak(brk, a);
    if n == |a| {
      LinesAfterLine(brk, a, b);
    } else if a[n] == '\r' && n + 1 == |a| {
      LinesAfterReturn(brk, a, b, n);
    } else {
      var rest := a[n + BreakLength(a, n)..];
      LinesApart(brk, rest, b);
      BreakInJoin(brk, a, b);
      JoinedStep(brk, a, b, n);
      EndsAsItsRest(brk, a, n);
      LinesStep(brk, a, n, rest);
      LinesStep(brk, a + "\n" + b, n, rest + "\n" + b);
    }
  }

  lemma JoinEnds(brk: char -> bool, a: string, b: string)
    requires brk('\n')
    ensures EndsInLine(brk, a + "\n" + b) <==> EndsInLine(brk, b)
  {
  }

  lemma {:induction false} LinesBeforeJoined(brk: char -> bool, texts: seq<string>)
    requires brk('\n') && texts != []
    ensures LinesBefore(brk, JoinLines(texts)) == LinesBeforeAll(brk, texts)
    ensures EndsInLine(brk, JoinLines(texts)) <==> EndsInLine(brk, texts[|texts| - 1])
  {
    var last := |texts| - 1;
    if last == 0 {
      assert texts[..0] == [];
    } else {
      LinesBeforeJoined(brk, texts[..last]);
      LinesApart(brk, JoinLines(texts[..last]), texts[last]);
      JoinEnds(brk, JoinLines(texts[..last]), texts[last]);
    }
  }

  lemma OneLineBefore(brk: char -> bool, line: string)
    requires Unbroken(brk, line)
    ensures LinesBefore(brk, line) == 1 && (EndsInLine(brk, line) <==> line != "")
  {
  }

  predicate AllUnbroken(brk: char -> bool, lines: seq<string>) {
    forall i :: 0 <= i < |lines| ==> Unbroken(brk, lines[i])
  }

  lemma {:induction false} UnbrokenCount(brk: char -> bool, lines: seq<string>)
    requires AllUnbroken(brk, lines)
    ensures LinesBeforeAll(brk, lines) == |lines|
  {
    if lines != [] {
      UnbrokenCount(brk, lines[..|lines| - 1]);
      OneLineBefore(brk, lines[|lines| - 1]);
    }
  }

  predicate EndsBlank(lines: seq<string>) {
    lines != [] && lines[|lines| - 1] == ""
  }

  /** A chunk followed by others fills as many lines as it was made of; alone it lacks a blank one at
      its end. */
  lemma ChunkCount(brk: char -> bool, group: seq<string>)
    requires brk('\n') && group != [] && AllUnbroken(brk, group)
    ensures LinesBefore(brk, JoinLines(group)) == |group|
    ensures EndsInLine(brk, JoinLines(group)) <==> !EndsBlank(group)
  {
    LinesBeforeJoined(brk, group);
    UnbrokenCount(brk, group);
    OneLineBefore(brk, group[|group| - 1]);
  }

  /** The guards of a revision: as many lines as the original and, unless that is empty, a similar
      length and text and the same speakers. */
  predicate Accepts(rules: Rules, original: string, candidate: string) {
    var revised := rules.unfence(candidate);
    var before, after := LinesOf(rules.brk, original), LinesOf(rules.brk, revised);
    && |before| == |after|
    && (original == "" || (SimilarLength(original, revised) && rules.alike(original, revised) && SameSpeakers(rules.speaker, before, after)))
  }

  /** A line feed ends a line, and fence stripping, whose last step trims, leaves no break at the end. */
  ghost predicate Trims(rules: Rules) {
    && rules.brk('\n')
    && forall s :: rules.unfence(s) == "" || !rules.brk(rules.unfence(s)[|rules.unfence(s)| - 1])
  }

  /** The chunk ends in a blank line, is more than that line, and its revision is accepted. */
  predicate LosesLine(rules: Rules, group: seq<string>, answer: string) {
    EndsBlank(group) && JoinLines(group) != "" && Accepts(rules, JoinLines(group), answer)
  }

  lemma RatioIff(k: real, part: real, whole: real)
    requires whole > 0.0
    ensures k <= part / whole <==> k * whole <= part
    ensures part / whole <= k <==> part <= k * whole
  {
    assert (part / whole) * whole == part;
  }

  lemma SimilarLengthIff(original: string, revised: string)
    requires original != ""
    ensures SimilarLength(original, revised) <==> 0.86 <= |revised| as real / |original| as real <= 1.14
  {
    RatioIff(0.86, |revised| as real, |original| as real);
    RatioIff(1.14, |revised| as real, |original| as real);
  }

  /** The guards in the program's own numbers: the ratio of the lengths is between 0.86 and 1.14. */
  lemma AcceptsIff(rules: Rules, original: string, candidate: string)
    ensures var revised := rules.unfence(candidate);
            var before, after := LinesOf(rules.brk, original), LinesOf(rules.brk, revised);
            Accepts(rules, original, candidate)
            <==> && |before| == |after|
                 && (original == ""
                     || (0.86 <= |revised| as real / |original| as real <= 1.14 && rules.alike(original, revised)
                         && forall i :: 0 <= i < |before| ==> rules.speaker(before[i]) == rules.speaker(after[i])))
  {
    if original != "" { SimilarLengthIff(original, rules.unfence(candidate)); }
  }

  lemma SafeRevisionAccepts(rules: Rules, original: string, candidate: string)
    ensures SafeRevision(rules, original, candidate) == if Accepts(rules, original, candidate) then rules.unfence(candidate) else original
    ensures |LinesOf(rules.brk, SafeRevision(rules, original, candidate))| == |LinesOf(rules.brk, original)|
  {
  }

  /** Alone, a revision has the lines of its chunk; before other text it loses one exactly when it
      is accepted for a chunk that ends in a blank line. */
  lemma RevisionCount(rules: Rules, group: seq<string>, answer: string)
    requires Trims(rules) && group != [] && AllUnbroken(rules.brk, group)
    ensures var revised := SafeRevision(rules, JoinLines(group), answer);
            && LinesBefore(rules.brk, revised) == |group| - (if LosesLine(rules, group, answer) then 1 else 0)
            && |LinesOf(rules.brk, revised)| == |group| - (if EndsBlank(group) then 1 else 0)
  {
    SafeRevisionAccepts(rules, JoinLines(group), answer);
    ChunkCount(rules.brk, group);
  }

  /** How many of the chunks lose a line. */
  function LinesLost(rules: Rules, groups: seq<seq<string>>, answers: seq<Option<string>>): nat
    requires |answers| == |groups|
  {
    if groups == [] then 0
    else
      var last := |groups| - 1;
      LinesLost(rules, groups[..last], answers[..last])
      + if answers[last].Some? && LosesLine(rules, groups[last], answers[last].value) then 1 else 0
  }

  predicate AllGroupsUnbroken(brk: char -> bool, groups: seq<seq<string>>) {
    forall i :: 0 <= i < |groups| ==> groups[i] != [] && AllUnbroken(brk, groups[i])
  }

  lemma {:induction false} RevisedCount(rules: Rules, groups: seq<seq<string>>, answers: seq<Option<string>>)
    requires Trims(rules) && |answers| == |groups| && AllGroupsUnbroken(rules.brk, groups)
    requires Revised(rules, JoinedAll(groups), answers).Some?
    ensures var texts := Revised(rules, JoinedAll(groups), answers).value;
            && |texts| == |groups|
            && LinesBeforeAll(rules.brk, texts) == |Flattened(groups)| - LinesLost(rules, groups, answers)
  {
    if groups != [] {
      var last := |groups| - 1;
      var texts := Revised(rules, JoinedAll(groups), answers).value;
      assert JoinedAll(groups)[..last] == JoinedAll(groups[..last]);
      RevisedCount(rules, groups[..last], answers[..last]);
      assert texts[..last] == Revised(rules, JoinedAll(groups[..last]), answers[..last]).value;
      RevisionCount(rules, groups[last], answers[last].value);
    }
  }

  predicate AllAnswered(answers: seq<Option<string>>) {
    forall i :: 0 <= i < |answers| ==> answers[i].Some?
  }

  lemma {:induction false} RevisedAnswered(rules: Rules, chunks: seq<string>, answers: seq<Option<string>>)
    requires |answers| == |chunks|
    ensures Revised(rules, chunks, answers).Some? <==> AllAnswered(answers)
  {
    if chunks != [] {
      var last := |chunks| - 1;
      RevisedAnswered(rules, chunks[..last], answers[..last]);
      if AllAnswered(answers[..last]) {
        assert answers == answers[..last] + [answers[last]];
      } else {
        var i :| 0 <= i < last && !answers[..last][i].Some?;
        assert !answers[i].Some?;
      }
    }
  }

  /** Each chunk is revised by its own answer. */
  lemma {:induction false} RevisedEach(rules: Rules, chunks: seq<string>, answers: seq<Option<string>>, i: nat)
    requires |answers| == |chunks| && AllAnswered(answers) && i < |chunks|
    ensures var texts := Revised(rules, chunks, answers);
            texts.Some? && |texts.value| == |chunks| && texts.value[i] == SafeRevision(rules, chunks[i], answers[i].value)
  {
    var last := |chunks| - 1;
    RevisedAnswered(rules, chunks, answers);
    RevisedLength(rules, chunks, answers);
    if i < last {
      RevisedEach(rules, chunks[..last], answers[..last], i);
    } else {
      RevisedAnswered(rules, chunks[..last], answers[..last]);
      RevisedLength(rules, chunks[..last], answers[..last]);
    }
  }

  lemma {:induction false} RevisedLength(rules: Rules, chunks: seq<string>, answers: seq<Option<string>>)
    requires |answers| == |chunks| && Revised(rules, chunks, answers).Some?
    ensures |Revised(rules, chunks, answers).value| == |chunks|
  {
    if chunks != [] { RevisedLength(rules, chunks[..|chunks| - 1], answers[..|chunks| - 1]); }
  }

  lemma {:induction false} GroupsUnbroken(brk: char -> bool, groups: seq<seq<string>>)
    requires Filled(groups) && AllUnbroken(brk, Flattened(groups))
    ensures AllGroupsUnbroken(brk, groups)
  {
    if groups != [] {
      var last, lines := |groups| - 1, Flattened(groups);
      var front := Flattened(groups[..last]);
      assert lines[..|front|] == front && lines[|front|..] == groups[last];
      GroupsUnbroken(brk, groups[..last]);
    }
  }

  /** The groups of a transcript's lines: none empty, none with a broken line, and the last one ends
      as the transcript does. */
  lemma TranscriptGroups(brk: char -> bool, transcript: string, target: nat)
    requires transcript != ""
    ensures var lines := LinesOf(brk, transcript);
            var groups := Grouped(lines, target);
            && groups != [] && AllGroupsUnbroken(brk, groups) && Flattened(groups) == lines
            && Chunks(brk, transcript, target) == JoinedAll(groups)
            && (EndsBlank(groups[|groups| - 1]) <==> EndsBlank(lines))
  {
    var lines := LinesOf(brk, transcript);
    forall i | 0 <= i < |lines| ensures Unbroken(brk, lines[i]) { LinesAreUnbroken(brk, transcript, i); }
    GroupedFacts(lines, target);
    GroupsUnbroken(brk, Grouped(lines, target));
  }

  /** The exact count: of an answered transcript each chunk but the last loses the blank line it ends
      in when its revision is accepted, and the last loses it whatever was answered. */
  lemma CorrectedCount(rules: Rules, transcript: string, target: nat, answers: seq<Option<string>>)
    requires Trims(rules) && transcript != ""
    requires |answers| == |Chunks(rules.brk, transcript, target)| && AllAnswered(answers)
    ensures var lines := LinesOf(rules.brk, transcript);
            var groups := Grouped(lines, target);
            && |groups| == |answers| > 0
            && |LinesOf(rules.brk, Corrected(rules, transcript, target, answers))|
               == |lines| - LinesLost(rules, groups[..|groups| - 1], answers[..|groups| - 1]) - if EndsBlank(lines) then 1 else 0
  {
    var groups := Grouped(LinesOf(rules.brk, transcript), target);
    TranscriptGroups(rules.brk, transcript, target);
    var chunks, last := JoinedAll(groups), |groups| - 1;
    RevisedAnswered(rules, chunks, answers);
    RevisedCount(rules, groups, answers);
    var texts := Revised(rules, chunks, answers).value;
    LinesBeforeJoined(rules.brk, texts);
    assert texts[last] == SafeRevision(rules, JoinLines(groups[last]), answers[last].value);
    RevisionCount(rules, groups[last], answers[last].value);
  }

  lemma {:induction false} NoneLost(rules: Rules, groups: seq<seq<string>>, answers: seq<Option<string>>)
    requires |answers| == |groups|
    ensures LinesLost(rules, groups, answers) == 0
            <==> forall i :: 0 <= i < |groups| && answers[i].Some? ==> !LosesLine(rules, groups[i], answers[i].value)
  {
    if groups != [] {
      var last := |groups| - 1;
      NoneLost(rules, groups[..last], answers[..last]);
      assert forall i :: 0 <= i < last ==> groups[..last][i] == groups[i] && answers[..last][i] == answers[i];
    }
  }

  lemma NoneLostBeforeLast(rules: Rules, groups: seq<seq<string>>, answers: seq<Option<string>>)
    requires |answers| == |groups| > 0 && AllAnswered(answers)
    ensures var last := |groups| - 1;
            LinesLost(rules, groups[..last], answers[..last]) == 0
            <==> forall i :: 0 <= i < last ==> !LosesLine(rules, groups[i], answers[i].value)
  {
    var last := |groups| - 1;
    NoneLost(rules, groups[..last], answers[..last]);
    assert forall i :: 0 <= i < last ==> groups[..last][i] == groups[i] && answers[..last][i] == answers[i];
  }

  /** Transcript structure: the correction keeps the number of lines if and only if an answer is
      missing, or the transcript does not end in a blank line and no chunk before the last one ends
      in a blank line and takes its revision. */
  lemma LinesKeptIff(rules: Rules, transcript: string, target: nat, answers: seq<Option<string>>)
    requires Trims(rules) && transcript != "" && |answers| == |Chunks(rules.brk, transcript, target)|
    ensures var lines := LinesOf(rules.brk, transcript);
            var groups := Grouped(lines, target);
            && |groups| == |answers|
            && (|LinesOf(rules.brk, Corrected(rules, transcript, target, answers))| == |lines|
                <==> (!AllAnswered(answers)
                      || (!EndsBlank(lines)
                          && forall i :: 0 <= i < |groups| - 1 ==> !LosesLine(rules, groups[i], answers[i].value))))
  {
    var groups := Grouped(LinesOf(rules.brk, transcript), target);
    TranscriptGroups(rules.brk, transcript, target);
    RevisedAnswered(rules, JoinedAll(groups), answers);
    if AllAnswered(answers) {
      CorrectedCount(rules, transcript, target, answers);
      NoneLostBeforeLast(rules, groups, answers);
    }
  }

  /** An empty transcript stays empty. */
  lemma NothingToCorrect(rules: Rules, target: nat, answers: seq<Option<string>>)
    requires |answers| == |Chunks(rules.brk, "", target)|
    ensures Corrected(rules, "", target, answers) == ""
  {
    assert Chunks(rules.brk, "", target) == [""];
    RevisedAnswered(rules, [""], answers);
    assert answers[..0] == [] && [""][..0] == [];
    if answers[0].Some? { assert LinesOf(rules.brk, SafeRevision(rules, "", answers[0].value)) == []; }
  }

  /** Two line feeds at the end of a transcript are two lines with the text before them, and the
      second is gone even when the only answer is refused. */
  lemma FinalBlankLineIsLost(rules: Rules, line: string, target: nat, answers: seq<Option<string>>)
    requires Trims(rules) && Unbroken(rules.brk, line)
    requires |answers| == |Chunks(rules.brk, line + "\n\n", target)| && AllAnswered(answers)
    ensures |LinesOf(rules.brk, line + "\n\n")| == 2
    ensures |LinesOf(rules.brk, Corrected(rules, line + "\n\n", target, answers))| < 2
  {
    BlankLineSplit(rules.brk, line, "");
    assert line + "\n\n" + "" == line + "\n\n";
    CorrectedCount(rules, line + "\n\n", target, answers);
  }

  lemma BlankLineSplit(brk: char -> bool, line: string, other: string)
    requires brk('\n') && Unbroken(brk, line)
    ensures LinesOf(brk, line + "\n\n" + other) == [line, ""] + LinesOf(brk, other)
  {
    var text := line + "\n\n" + other;
    assert text == line + "\n" + ("\n" + other);
    BreakInJoin(brk, line, "\n" + other);
    assert text[..|line|] == line && text[|line| + 1..] == "\n" + other;
    LinesStep(brk, text, |line|, "\n" + other);
    assert ("\n" + other)[..0] == "" && ("\n" + other)[1..] == other;
    LinesStep(brk, "\n" + other, 0, other);
  }

  /** A line, a blank line, and another line that no longer fits: two chunks. */
  lemma BlankLineGrouped(line: string, other: string, target: nat)
    requires |line| + 1 <= target < |line| + 2 + |other|
    ensures Grouped([line, "", other], target) == [[line, ""], [other]]
  {
    var lines := [line, "", other];
    assert lines[..0] == [] && lines[..1] == [line] && lines[..2] == [line, ""] && lines[..3] == lines;
    BuildOneMore(lines, target, 0);
    assert Build(lines[..1], target) == Building([], [line], |line|);
    BuildOneMore(lines, target, 1);
    assert Build(lines[..2], target) == Building([], [line, ""], |line| + 1);
    BuildOneMore(lines, target, 2);
    assert Build(lines, target) == Building([[line, ""]], [other], |other| + 1);
  }

  /** A line of seven characters or more, a blank line, and another line that starts a second chunk:
      the first answer repeats the line without the blank one, is accepted, and the line is gone. */
  lemma TrailingBlankLineIsLost(rules: Rules, line: string, other: string, target: nat, first: string, second: string)
    requires Trims(rules) && Unbroken(rules.brk, line) && Unbroken(rules.brk, other)
    requires |line| >= 7 && other != "" && |line| + 1 <= target < |line| + 2 + |other|
    requires rules.unfence(first) == line && rules.alike(line + "\n", line)
    ensures |LinesOf(rules.brk, line + "\n\n" + other)| == 3 && |Chunks(rules.brk, line + "\n\n" + other, target)| == 2
    ensures |LinesOf(rules.brk, Corrected(rules, line + "\n\n" + other, target, [Some(first), Some(second)]))| == 2
  {
    var transcript := line + "\n\n" + other;
    ThreeLines(rules.brk, line, other);
    BlankLineGrouped(line, other, target);
    CorrectedCount(rules, transcript, target, [Some(first), Some(second)]);
    RevisionTaken(rules, line, first);
    LostOnce(rules, [[line, ""], [other]], [Some(first), Some(second)]);
  }

  lemma ThreeLines(brk: char -> bool, line: string, other: string)
    requires brk('\n') && Unbroken(brk, line) && Unbroken(brk, other) && other != ""
    ensures LinesOf(brk, line + "\n\n" + other) == [line, "", other]
  {
    BlankLineSplit(brk, line, other);
  }

  lemma LostOnce(rules: Rules, groups: seq<seq<string>>, answers: seq<Option<string>>)
    requires |answers| == |groups| == 2 && answers[0].Some?
    requires LosesLine(rules, groups[0], answers[0].value)
    ensures LinesLost(rules, groups[..1], answers[..1]) == 1
  {
    assert groups[..1][..0] == [] && answers[..1][..0] == [];
  }

  lemma RevisionTaken(rules: Rules, line: string, answer: string)
    requires rules.brk('\n') && Unbroken(rules.brk, line) && |line| >= 7
    requires rules.unfence(answer) == line && rules.alike(line + "\n", line)
    ensures LosesLine(rules, [line, ""], answer)
  {
    assert [line, ""][..1] == [line] && line + "\n" + "" == line + "\n";
    LinesAfterLine(rules.brk, line, "");
    BreakInJoin(rules.brk, line, "");
    assert (line + "\n")[..|line|] == line && (line + "\n")[|line| + 1..] == "";
    LinesStep(rules.brk, line + "\n", |line|, "");
  }

  // ---------- as it runs ----------

  lemma JoinedOneMore(groups: seq<seq<string>>, group: seq<string>)
    ensures JoinedAll(groups + [group]) == JoinedAll(groups) + [JoinLines(group)]
  {
  }

  lemma BuildOneMore(lines: seq<string>, target: nat, i: nat)
    requires i < |lines|
    ensures Build(lines[..i + 1], target) == PlaceLine(Build(lines[..i], target), lines[i], target)
  {
    assert lines[..i + 1][..i] == lines[..i];
  }

  method MakeChunks(brk: char -> bool, text: string, target: nat) returns (chunks: seq<string>)
    ensures chunks == Chunks(brk, text, target)
  {
    var lines := LinesOf(brk, text);
    chunks := [];
    if lines == [] { return [text]; }
    var current: seq<string>, size, i := [], 0, 0;
    while i < |lines|
      invariant i <= |lines|
      invariant chunks == JoinedAll(Build(lines[..i], target).closed)
      invariant current == Build(lines[..i], target).open && size == Build(lines[..i], target).size
    {
      BuildOneMore(lines, target, i);
      JoinedOneMore(Build(lines[..i], target).closed, current);
      var added := |lines[i]| + if current != [] then 1 else 0;
      if current != [] && size + added > target {
        chunks := chunks + [JoinLines(current)];
        current, size := [], 0;
      }
      current := current + [lines[i]];
      size := size + added;
      i := i + 1;
    }
    assert lines[..i] == lines;
    JoinedOneMore(Build(lines, target).closed, current);
    if current != [] { chunks := chunks + [JoinLines(current)]; }
  }

  lemma RevisedOneMore(rules: Rules, chunks: seq<string>, answers: seq<Option<string>>, i: nat)
    requires i < |answers| == |chunks|
    ensures Revised(rules, chunks[..i + 1], answers[..i + 1])
            == match Revised(rules, chunks[..i], answers[..i])
               case None => None
               case Some(earlier) =>
                 match answers[i]
                 case None => None
                 case Some(answer) => Some(earlier + [SafeRevision(rules, chunks[i], answer)])
  {
    assert chunks[..i + 1][..i] == chunks[..i] && answers[..i + 1][..i] == answers[..i];
  }

  method CorrectTranscript(rules: Rules, transcript: string, target: nat, answers: seq<Option<string>>) returns (text: string)
    requires |answers| == |Chunks(rules.brk, transcript, target)|
    ensures text == Corrected(rules, transcript, target, answers)
  {
    var parts := MakeChunks(rules.brk, transcript, target);
    var corrected: seq<string>, i, failed := [], 0, false;
    while i < |parts| && !failed
      invariant i <= |parts|
      invariant Revised(rules, parts[..i], answers[..i]) == if failed then None else Some(corrected)
    {
      RevisedOneMore(rules, parts, answers, i);
      if answers[i].None? {
        failed := true;
      } else {
        corrected := corrected + [SafeRevision(rules, parts[i], answers[i].value)];
      }
      i := i + 1;
    }
    if failed {
      RevisedFails(rules, parts, answers, i);
      text := transcript;
    } else {
      assert parts[..i] == parts && answers[..i] == answers;
      text := JoinLines(corrected);
    }
  }

  lemma {:induction false} RevisedFails(rules: Rules, chunks: seq<string>, answers: seq<Option<string>>, n: nat)
    requires |answers| == |chunks| && n <= |chunks| && Revised(rules, chunks[..n], answers[..n]).None?
    ensures Revised(rules, chunks, answers).None?
  {
    var last := |chunks| - 1;
    if n == |chunks| {
      assert chunks[..n] == chunks && answers[..n] == answers;
    } else {
      assert chunks[..last][..n] == chunks[..n] && answers[..last][..n] == answers[..n];
      RevisedFails(rules, chunks[..last], answers[..last], n);
    }
  }
}
