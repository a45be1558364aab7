/** The `Git` namespace of the prompt program: reading the output of
    `git status --porcelain=2 -b` into a `Status` record. Every step is total:
    a line that matches nothing is ignored and absent data yields defaults. */
module Git {
  import opened Text
  import Stream

  datatype WorkingDirectoryStatus = Modified | Clean

  datatype UpstreamStatus = Set | Unset

  /** `unsigned int` */
  type UInt32 = x: int | 0 <= x < 0x1_0000_0000

  datatype Status = Status(
    workingDirectoryStatus: WorkingDirectoryStatus,
    upstreamState: UpstreamStatus,
    nbCommitsAhead: UInt32,
    nbCommitsBehind: UInt32)

  /** The member initialisers of `Git::Status`. */
  const DEFAULT_STATUS := Status(Clean, Unset, 0, 0)

  /** `operator==` compares the four fields one by one. */
  function StatusEquals(left: Status, right: Status): (equal: bool)
    ensures equal <==> left == right
  {
    left.workingDirectoryStatus == right.workingDirectoryStatus &&
    left.upstreamState == right.upstreamState &&
    left.nbCommitsAhead == right.nbCommitsAhead &&
    left.nbCommitsBehind == right.nbCommitsBehind
  }

  // ---------------------------------------------------------------------------
  // Working tree: an all-of over the lines

  /** A header line (`#`) or an untracked entry (`?`): neither is a change to tracked files. */
  predicate IsHeaderOrUntracked(line: string) {
    StartsWith(line, "#") || StartsWith(line, "?")
  }

  function GetWorkingDirectoryStatus(lines: seq<string>): (status: WorkingDirectoryStatus)
    ensures status == Clean <==> forall line :: line in lines ==> IsHeaderOrUntracked(line)
    decreases |lines|
  {
    if lines == [] then Clean
    else if !IsHeaderOrUntracked(lines[0]) then Modified
    else
      assert lines == [lines[0]] + lines[1..];
      GetWorkingDirectoryStatus(lines[1..])
  }

  // ---------------------------------------------------------------------------
  // Upstream: an any-of over the lines

  predicate IsUpstreamLine(line: string) {
    StartsWith(line, "# branch.upstream")
  }

  function GetUpstreamState(lines: seq<string>): (state: UpstreamStatus)
    ensures state == Set <==> exists line :: line in lines && IsUpstreamLine(line)
    decreases |lines|
  {
    if lines == [] then Unset
    else if IsUpstreamLine(lines[0]) then Set
    else
      assert lines == [lines[0]] + lines[1..];
      GetUpstreamState(lines[1..])
  }

  // ---------------------------------------------------------------------------
  // Ahead/behind: the first full match of `# branch.ab \+([\d]+) -([\d]+)`

  /** What the regex `.` accepts: any character but a line terminator (ECMAScript grammar). */
  predicate RegexAnyChar(c: char) {
    c != '\n' && c != '\r'
  }

  /** The lines the pattern matches: the unescaped `.` of `branch.ab` stands for `any`. */
  function AheadBehindLine(any: char, ahead: string, behind: string): string {
    "# branch" + [any] + "ab +" + ahead + " -" + behind
  }

  /** `std::regex_match` of the whole line against the pattern; on a match, the two captures. */
  function MatchAheadBehind(line: string): (captures: Option<(string, string)>)
    ensures captures.Some? ==>
      var (ahead, behind) := captures.value;
      ahead != [] && IsDigits(ahead) && behind != [] && IsDigits(behind) &&
      |line| > 8 && RegexAnyChar(line[8]) && line == AheadBehindLine(line[8], ahead, behind)
  {
    if |line| < 13 || line[..8] != "# branch" || !RegexAnyChar(line[8]) || line[9..13] != "ab +" then None
    else
      var rest := line[13..];
      var n := LeadingDigits(rest);
      var tail := rest[n..];
      if n == 0 || |tail| < 3 || tail[..2] != " -" || !IsDigits(tail[2..]) then None
      else
        assert line == line[..8] + [line[8]] + line[9..13] + rest[..n] + tail[..2] + tail[2..];
        Some((rest[..n], tail[2..]))
  }

  lemma {:induction false} LeadingDigitsOf(digits: string, rest: string)
    requires IsDigits(digits)
    requires rest != [] && !IsDigit(rest[0])
    ensures LeadingDigits(digits + rest) == |digits|
    decreases |digits|
  {
    var s := digits + rest;
    if digits != [] {
      assert s[0] == digits[0] && IsDigit(s[0]);
      assert s[1..] == digits[1..] + rest;
      LeadingDigitsOf(digits[1..], rest);
      assert LeadingDigits(s) == 1 + LeadingDigits(s[1..]);
    } else {
      assert s[0] == rest[0];
    }
  }

  /** The pattern matches every line of the form `AheadBehindLine`, capturing its two digit runs. */
  lemma MatchAheadBehindComplete(any: char, ahead: string, behind: string)
    requires RegexAnyChar(any)
    requires ahead != [] && IsDigits(ahead) && behind != [] && IsDigits(behind)
    ensures MatchAheadBehind(AheadBehindLine(any, ahead, behind)) == Some((ahead, behind))
  {
    var line := AheadBehindLine(any, ahead, behind);
    var rest := line[13..];
    assert line[..8] == "# branch" && line[8] == any && line[9..13] == "ab +";
    assert rest == ahead + (" -" + behind);
    LeadingDigitsOf(ahead, " -" + behind);
    assert rest[..|ahead|] == ahead;
    assert rest[|ahead|..] == " -" + behind;
  }

  /** `static_cast<unsigned int>(std::stoul(digits))`: the value modulo 2^32. */
  function ToUnsigned(digits: string): (n: UInt32)
    requires IsDigits(digits)
    ensures DecimalValue(digits) < 0x1_0000_0000 ==> n == DecimalValue(digits)
  {
    DecimalValue(digits) % 0x1_0000_0000
  }

  /** The result of `getBranchRelativeHistory`: the counts of the first matching line, else (0, 0). */
  function BranchRelativeHistory(lines: seq<string>): (UInt32, UInt32)
    decreases |lines|
  {
    if lines == [] then (0, 0)
    else match MatchAheadBehind(lines[0])
      case Some((ahead, behind)) => (ToUnsigned(ahead), ToUnsigned(behind))
      case None => BranchRelativeHistory(lines[1..])
  }

  /** The loop of `getBranchRelativeHistory`, returning early on the first match. */
  method GetBranchRelativeHistory(lines: seq<string>) returns (ahead: UInt32, behind: UInt32)
    ensures (ahead, behind) == BranchRelativeHistory(lines)
  {
    for i := 0 to |lines|
      invariant BranchRelativeHistory(lines[i..]) == BranchRelativeHistory(lines)
    {
      assert lines[i..][0] == lines[i] && lines[i..][1..] == lines[i + 1..];
      var captures := MatchAheadBehind(lines[i]);
      if captures.Some? {
        return ToUnsigned(captures.value.0), ToUnsigned(captures.value.1);
      }
    }
    assert lines[|lines|..] == [];
    return 0, 0;
  }

  /** The counts come from the first line that matches, whatever follows it. */
  lemma {:induction false} BranchRelativeHistoryFirstMatch(lines: seq<string>, i: nat)
    requires i < |lines| && MatchAheadBehind(lines[i]).Some?
    requires forall j :: 0 <= j < i ==> MatchAheadBehind(lines[j]).None?
    ensures var (ahead, behind) := MatchAheadBehind(lines[i]).value;
      BranchRelativeHistory(lines) == (ToUnsigned(ahead), ToUnsigned(behind))
    decreases i
  {
    if i > 0 {
      assert MatchAheadBehind(lines[0]).None?;
      assert lines[1..][i - 1] == lines[i];
      BranchRelativeHistoryFirstMatch(lines[1..], i - 1);
    }
  }

  /** Without a matching line the counts are (0, 0). */
  lemma {:induction false} BranchRelativeHistoryNoMatch(lines: seq<string>)
    requires forall j :: 0 <= j < |lines| ==> MatchAheadBehind(lines[j]).None?
    ensures BranchRelativeHistory(lines) == (0, 0)
    decreases |lines|
  {
    if lines != [] {
      assert MatchAheadBehind(lines[0]).None?;
      BranchRelativeHistoryNoMatch(lines[1..]);
    }
  }

  /** A line the pattern rejects never changes the counts, wherever it is inserted. */
  lemma {:induction false} BranchRelativeHistoryIgnores(before: seq<string>, line: string, after: seq<string>)
    requires MatchAheadBehind(line).None?
    ensures BranchRelativeHistory(before + [line] + after) == BranchRelativeHistory(before + after)
    decreases |before|
  {
    if before == [] {
      assert (before + [line] + after)[0] == line;
      assert (before + [line] + after)[1..] == after;
      assert before + after == after;
    } else {
      assert (before + [line] + after)[0] == before[0] == (before + after)[0];
      assert (before + [line] + after)[1..] == before[1..] + [line] + after;
      assert (before + after)[1..] == before[1..] + after;
      BranchRelativeHistoryIgnores(before[1..], line, after);
    }
  }

  /** Counts printed in decimal come back unchanged (for counts that fit in `unsigned int`). */
  lemma AheadBehindRoundTrip(ahead: UInt32, behind: UInt32)
    ensures BranchRelativeHistory([AheadBehindLine('.', NatToDecimal(ahead), NatToDecimal(behind))]) == (ahead, behind)
  {
    MatchAheadBehindComplete('.', NatToDecimal(ahead), NatToDecimal(behind));
  }

  // ---------------------------------------------------------------------------
  // getStatus

  /** The lines `getStatus` hands to the extractors: the newline-separated
      pieces of the text, less the last one when it is empty. */
  function StatusLines(text: string): (lines: seq<string>)
    ensures var pieces := Split(text, '\n');
      |lines| <= |pieces| && lines == pieces[..|lines|] &&
      (|lines| == |pieces| - 1 <==> pieces[|pieces| - 1] == "") &&
      (|lines| == |pieces| <==> pieces[|pieces| - 1] != "")
  {
    var pieces := Split(text, '\n');
    if pieces != [] && pieces[|pieces| - 1] == "" then pieces[..|pieces| - 1] else pieces
  }

  /** What `getStatus` keeps of the lines its read loop collects: after the
      `pop_back` of a trailing empty line they are exactly `StatusLines`. The
      extra empty line of an unterminated text is the one removed. */
  lemma PopBackOfReadLines(text: string)
    ensures var read := Stream.ReadLines(text);
      (if read != [] && read[|read| - 1] == "" then read[..|read| - 1] else read) == StatusLines(text)
  {
    var pieces := Split(text, '\n');
    SplitEndsEmpty(text, '\n');
    if text != [] && text[|text| - 1] != '\n' {
      assert (pieces + [""])[..|pieces|] == pieces;
    } else {
      assert Stream.ReadLines(text) == pieces;
    }
  }

  /** The record built from the lines by the three extractors. */
  function ParseStatus(lines: seq<string>): Status {
    var (ahead, behind) := BranchRelativeHistory(lines);
    Status(GetWorkingDirectoryStatus(lines), GetUpstreamState(lines), ahead, behind)
  }

  /** `getStatus`: read lines with `std::getline` while the stream converts to
      `true`, which takes one failing read after the text is used up, drop one
      trailing empty line, then run the extractors. */
  method GetStatus(text: string) returns (status: Status)
    ensures status == ParseStatus(StatusLines(text))
  {
    var lines: seq<string> := [];
    var pos: nat := 0;
    var good := true;
    ghost var read := Stream.ReadLines(text);
    while good
      invariant pos <= |text|
      invariant good ==> lines + Stream.ReadLines(text[pos..]) == read
      invariant !good ==> lines == read
      decreases |text| - pos + (if good then 1 else 0)
    {
      var line;
      line, pos, good := Stream.GetLine(text, pos);
      if good {
        ghost var rest := Stream.ReadLines(text[pos..]);
        assert (lines + [line]) + rest == lines + ([line] + rest);
      }
      lines := lines + [line];
    }
    PopBackOfReadLines(text);
    if lines != [] && lines[|lines| - 1] == "" {
      lines := lines[..|lines| - 1];
    }
    var ahead, behind := GetBranchRelativeHistory(lines);
    status := Status(GetWorkingDirectoryStatus(lines), GetUpstreamState(lines), ahead, behind);
  }

  /** Newline-terminated output gives back exactly its lines, interior empty lines included. */
  lemma StatusLinesOfTerminated(lines: seq<string>)
    requires forall i :: 0 <= i < |lines| ==> '\n' !in lines[i]
    ensures StatusLines(Terminated(lines)) == lines
  {
    TerminatedIsJoin(lines);
    SplitJoin(lines + [""], '\n');
    assert (lines + [""])[..|lines|] == lines;
  }

  /** No output at all is a clean working tree without upstream, neither ahead nor behind. */
  lemma EmptyOutputIsDefault()
    ensures StatusLines("") == []
    ensures ParseStatus([]) == DEFAULT_STATUS
  {
  }

  /** One change entry, anywhere, makes the tree Modified and leaves the other fields alone. */
  lemma ParseStatusWithChange(before: seq<string>, line: string, after: seq<string>)
    requires !IsHeaderOrUntracked(line)
    ensures ParseStatus(before + [line] + after) == ParseStatus(before + after).(workingDirectoryStatus := Modified)
  {
    assert line[..0] == [] && (|line| > 0 ==> line[..1] == [line[0]]);
    assert line in before + [line] + after;
    assert MatchAheadBehind(line).None? by {
      if |line| >= 13 { assert line[..8][0] == line[0]; }
    }
    BranchRelativeHistoryIgnores(before, line, after);
    assert !IsUpstreamLine(line) by {
      if |line| >= 17 { assert line[..17][0] == line[0]; }
    }
  }

  /** An untracked entry, anywhere, changes nothing. */
  lemma ParseStatusWithUntracked(before: seq<string>, line: string, after: seq<string>)
    requires StartsWith(line, "?")
    ensures ParseStatus(before + [line] + after) == ParseStatus(before + after)
  {
    assert line[0] == '?';
    assert IsHeaderOrUntracked(line);
    var with, without := before + [line] + after, before + after;
    assert forall l :: l in with ==> l in without || l == line;
    assert forall l :: l in without ==> l in with;
    assert MatchAheadBehind(line).None? by {
      if |line| >= 13 { assert line[..8][0] == line[0]; }
    }
    BranchRelativeHistoryIgnores(before, line, after);
    assert !IsUpstreamLine(line) by {
      if |line| >= 17 { assert line[..17][0] == line[0]; }
    }
  }
}
