/** The string operations the programs share. */
module Texts {

  // ---------- strip; `space` says which characters it removes ----------

  function DropLeft(space: char -> bool, s: string): (r: string)
    ensures |r| <= |s|
  {
    if s != "" && space(s[0]) then DropLeft(space, s[1..]) else s
  }

  function DropRight(space: char -> bool, s: string): (r: string)
    ensures |r| <= |s|
  {
    if s != "" && space(s[|s| - 1]) then DropRight(space, s[..|s| - 1]) else s
  }

  function Strip(space: char -> bool, s: string): string {
    DropRight(space, DropLeft(space, s))
  }

  predicate Trimmed(space: char -> bool, s: string) {
    s == "" || (!space(s[0]) && !space(s[|s| - 1]))
  }

  lemma {:induction false} DropLeftBare(space: char -> bool, s: string)
    ensures DropLeft(space, s) == "" || !space(DropLeft(space, s)[0])
  {
    if s != "" { DropLeftBare(space, s[1..]); }
  }

  lemma {:induction false} DropRightBare(space: char -> bool, s: string)
    requires s == "" || !space(s[0])
    ensures Trimmed(space, DropRight(space, s))
  {
    if s != "" && space(s[|s| - 1]) { DropRightBare(space, s[..|s| - 1]); }
  }

  lemma StripIsTrimmed(space: char -> bool, s: string)
    ensures Trimmed(space, Strip(space, s))
    ensures Strip(space, s) == s <==> Trimmed(space, s)
  {
    DropLeftBare(space, s);
    DropRightBare(space, DropLeft(space, s));
  }

  lemma {:induction false} DropLeftIsPart(space: char -> bool, s: string, c: char)
    requires c !in s
    ensures c !in DropLeft(space, s)
  {
    if s != "" { DropLeftIsPart(space, s[1..], c); }
  }

  lemma {:induction false} DropRightIsPart(space: char -> bool, s: string, c: char)
    requires c !in s
    ensures c !in DropRight(space, s)
  {
    if s != "" { DropRightIsPart(space, s[..|s| - 1], c); }
  }

  lemma StripIsPart(space: char -> bool, s: string, c: char)
    requires c !in s
    ensures c !in Strip(space, s)
  {
    DropLeftIsPart(space, s, c);
    DropRightIsPart(space, DropLeft(space, s), c);
  }

  // ---------- reading a file in text mode: every line ending becomes a line feed ----------

  function Universal(s: string): string {
    if s == "" then ""
    else if s[0] == '\r' then "\n" + Universal(if |s| > 1 && s[1] == '\n' then s[2..] else s[1..])
    else [s[0]] + Universal(s[1..])
  }

  lemma {:induction false} UniversalHasNoReturn(s: string)
    ensures '\r' !in Universal(s)
  {
    if s != "" { UniversalHasNoReturn(if s[0] == '\r' && |s| > 1 && s[1] == '\n' then s[2..] else s[1..]); }
  }

  lemma {:induction false} UniversalKeeps(s: string)
    requires '\r' !in s
    ensures Universal(s) == s
  {
    if s != "" { UniversalKeeps(s[1..]); }
  }

  /** A text written as it is and read back stripped: the same exactly when it has no carriage
      return. */
  function ReadBack(space: char -> bool, written: string): string {
    Strip(space, Universal(written))
  }

  lemma ReadBackIff(space: char -> bool, s: string)
    requires Trimmed(space, s)
    ensures ReadBack(space, s) == s <==> '\r' !in s
  {
    if '\r' in s {
      UniversalHasNoReturn(s);
      StripIsPart(space, Universal(s), '\r');
    } else {
      UniversalKeeps(s);
      StripIsTrimmed(space, s);
    }
  }

  /** Reading in text mode up to the first carriage return: it and a line feed after it become one line
      feed. */
  lemma {:induction false} UniversalStep(line: string, rest: string)
    requires '\r' !in line
    ensures Universal(line + "\r\n" + rest) == line + "\n" + Universal(rest)
    ensures (rest != "" ==> rest[0] != '\n') ==> Universal(line + "\r" + rest) == line + "\n" + Universal(rest)
    decreases |line|
  {
    if line == "" {
      assert line + "\r\n" + rest == "\r\n" + rest && ("\r\n" + rest)[2..] == rest;
      assert line + "\r" + rest == "\r" + rest && ("\r" + rest)[1..] == rest;
    } else {
      UniversalStep(line[1..], rest);
      assert (line + "\r\n" + rest)[1..] == line[1..] + "\r\n" + rest && (line + "\r" + rest)[1..] == line[1..] + "\r" + rest;
    }
  }
}
