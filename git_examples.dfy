/** The porcelain outputs of the prompt program's unit tests, and what `getStatus` makes of them.
    Long lines are spelled as concatenations of shorter literals. */
module GitExamples {
  import opened Text
  import opened Git

  const OID_CLEAN := "b6537cc298777bf35ca3d64ab519d1ad98a5ec45"
  const OID_MODIFIED := "d67d49339dfd71e38a3137d6c88c3f2cbeed3919"
  const OID_AHEAD := "f27c9a2d1527f1bbc16c97132c92b893cfac71fe"
  const BRANCH := "GSD-2808_filter_invalid_packets_based_on_date"
  const NEW_FILE := "1 AM N... 000000 100644 100644 "
  const NO_BLOB := "0000000000000000000000000000000000000000"
  const EMPTY_BLOB := "e69de29bb2d1d6434b8b29ae775ad8c2e48c5391"

  const CLEAN := [
    "# branch.oid " + OID_CLEAN,
    "# branch.head " + BRANCH,
    "# branch.upstream origin/" + BRANCH,
    "# branch.ab +0 -0",
    "? ../../../../dummy-client/" + "conanfile_windows.txt",
    "? ../JPG/2022Apr12_11-48-21.log"]

  const LOCALLY_MODIFIED := [
    "# branch.oid " + OID_MODIFIED,
    "# branch.head trunk",
    "# branch.upstream origin/trunk",
    "# branch.ab +0 -0",
    NEW_FILE + NO_BLOB + " " + EMPTY_BLOB + " status_examples/" + "branch_equal_to_origin",
    NEW_FILE + NO_BLOB + " " + EMPTY_BLOB + " status_examples/" + "branch_without_upstream",
    "? .clang-format",
    "? cmake-build-release/"]

  /** Spelled exactly as `CLEAN` in the tests. */
  const EQUAL_TO_ORIGIN := CLEAN

  const WITHOUT_UPSTREAM := [
    "# branch.oid " + OID_CLEAN,
    "# branch.head " + BRANCH,
    "? ../../../../dummy-client/" + "conanfile_windows.txt",
    "? ../JPG/2022Apr12_11-48-21.log"]

  const AHEAD := [
    "# branch.oid " + OID_AHEAD,
    "# branch.head " + BRANCH,
    "# branch.upstream origin/" + BRANCH,
    "# branch.ab +1 -0"]

  const BEHIND := [
    "# branch.oid " + OID_CLEAN,
    "# branch.head " + BRANCH,
    "# branch.upstream origin/" + BRANCH,
    "# branch.ab +0 -1",
    "? dummy-client/conanfile_windows.txt",
    "? ref-data/datasets/samples/" + "JPG/2022Apr12_11-48-21.log"]

  const AHEAD_AND_BEHIND := [
    "# branch.oid " + OID_AHEAD,
    "# branch.head " + BRANCH,
    "# branch.upstream origin/" + BRANCH,
    "# branch.ab +2 -13"]

  // ---------------------------------------------------------------------------
  // What each kind of line contributes to the three extractors

  datatype LineKind = Informational | Upstream | AheadBehind(ahead: UInt32, behind: UInt32) | Change

  predicate HasKind(line: string, kind: LineKind) {
    match kind
    case Informational =>
      IsHeaderOrUntracked(line) && !IsUpstreamLine(line) && MatchAheadBehind(line).None?
    case Upstream =>
      IsHeaderOrUntracked(line) && IsUpstreamLine(line) && MatchAheadBehind(line).None?
    case AheadBehind(ahead, behind) =>
      IsHeaderOrUntracked(line) && !IsUpstreamLine(line) && MatchAheadBehind(line).Some? &&
      ToUnsigned(MatchAheadBehind(line).value.0) == ahead &&
      ToUnsigned(MatchAheadBehind(line).value.1) == behind
    case Change =>
      !IsHeaderOrUntracked(line) && !IsUpstreamLine(line) && MatchAheadBehind(line).None?
  }

  /** The status read from lines of the given kinds. */
  function StatusOfKinds(kinds: seq<LineKind>): Status
    decreases |kinds|
  {
    if kinds == [] then DEFAULT_STATUS
    else
      var rest := StatusOfKinds(kinds[1..]);
      match kinds[0]
      case Informational => rest
      case Upstream => rest.(upstreamState := Set)
      case AheadBehind(ahead, behind) => rest.(nbCommitsAhead := ahead, nbCommitsBehind := behind)
      case Change => rest.(workingDirectoryStatus := Modified)
  }

  lemma {:induction false} ParseStatusByKinds(lines: seq<string>, kinds: seq<LineKind>)
    requires |lines| == |kinds|
    requires forall i :: 0 <= i < |lines| ==> HasKind(lines[i], kinds[i])
    ensures ParseStatus(lines) == StatusOfKinds(kinds)
    decreases |lines|
  {
    if lines != [] {
      assert HasKind(lines[0], kinds[0]);
      ParseStatusByKinds(lines[1..], kinds[1..]);
      assert lines == [lines[0]] + lines[1..];
    }
  }


  lemma OtherBranchHeader(line: string)
    requires |line| >= 13 && line[0] == '#' && line[9] != 'a' && line[9] != 'u'
    ensures IsHeaderOrUntracked(line) && !IsUpstreamLine(line) && MatchAheadBehind(line).None?
  {
    assert line[..1] == "#";
    if |line| >= 17 {
      assert line[..17][9] != "# branch.upstream"[9];
    }
    assert line[9..13][0] != "ab +"[0];
  }

  lemma UpstreamHeader(line: string)
    requires StartsWith(line, "# branch.upstream")
    ensures IsHeaderOrUntracked(line) && IsUpstreamLine(line) && MatchAheadBehind(line).None?
  {
    assert line[..1] == line[..17][..1] == "#";
    assert line[9..13][0] == line[..17][9] == 'u';
  }

  lemma AheadBehindHeader(line: string, ahead: string, behind: string)
    requires ahead != [] && IsDigits(ahead) && behind != [] && IsDigits(behind)
    requires line == "# branch.ab +" + ahead + " -" + behind
    ensures IsHeaderOrUntracked(line) && !IsUpstreamLine(line) && MatchAheadBehind(line) == Some((ahead, behind))
  {
    assert line == AheadBehindLine('.', ahead, behind);
    MatchAheadBehindComplete('.', ahead, behind);
    assert line[..1] == "#";
    if |line| >= 17 {
      assert line[..17][9] != "# branch.upstream"[9];
    }
  }

  lemma UntrackedEntry(line: string)
    requires line != [] && line[0] == '?'
    ensures IsHeaderOrUntracked(line) && !IsUpstreamLine(line) && MatchAheadBehind(line).None?
  {
    assert line[..1] == "?";
    if |line| >= 17 {
      assert line[..17][0] != "# branch.upstream"[0];
    }
    if |line| >= 13 {
      assert line[..8][0] != "# branch"[0];
    }
  }

  lemma ChangeEntry(line: string)
    requires line != [] && line[0] != '#' && line[0] != '?'
    ensures !IsHeaderOrUntracked(line) && !IsUpstreamLine(line) && MatchAheadBehind(line).None?
  {
    assert line[..1] == [line[0]];
    if |line| >= 17 {
      assert line[..17][0] != "# branch.upstream"[0];
    }
    if |line| >= 13 {
      assert line[..8][0] != "# branch"[0];
    }
  }

  // ---------------------------------------------------------------------------
  // The expectations of the "git status" test case

  lemma StatusOfClean()
    ensures ParseStatus(CLEAN) == Status(Clean, Set, 0, 0)
  {
    var kinds := [Informational, Informational, Upstream, AheadBehind(0, 0), Informational, Informational];
    forall i | 0 <= i < |CLEAN| ensures HasKind(CLEAN[i], kinds[i]) {
      if i < 2 { OtherBranchHeader(CLEAN[i]); }
      else if i == 2 { UpstreamHeader(CLEAN[i]); }
      else if i == 3 { AheadBehindHeader(CLEAN[i], "0", "0"); }
      else { UntrackedEntry(CLEAN[i]); }
    }
    ParseStatusByKinds(CLEAN, kinds);
  }

  lemma StatusOfLocallyModified()
    ensures ParseStatus(LOCALLY_MODIFIED) == Status(Modified, Set, 0, 0)
  {
    var lines := LOCALLY_MODIFIED;
    var kinds := [Informational, Informational, Upstream, AheadBehind(0, 0), Change, Change, Informational, Informational];
    forall i | 0 <= i < |lines| ensures HasKind(lines[i], kinds[i]) {
      if i < 2 { OtherBranchHeader(lines[i]); }
      else if i == 2 { UpstreamHeader(lines[i]); }
      else if i == 3 { AheadBehindHeader(lines[i], "0", "0"); }
      else if i < 6 { ChangeEntry(lines[i]); }
      else { UntrackedEntry(lines[i]); }
    }
    ParseStatusByKinds(lines, kinds);
  }

  lemma StatusOfEqualToOrigin()
    ensures ParseStatus(EQUAL_TO_ORIGIN) == Status(Clean, Set, 0, 0)
  {
    StatusOfClean();
  }

  lemma StatusOfWithoutUpstream()
    ensures ParseStatus(WITHOUT_UPSTREAM) == Status(Clean, Unset, 0, 0)
  {
    var lines := WITHOUT_UPSTREAM;
    var kinds := [Informational, Informational, Informational, Informational];
    forall i | 0 <= i < |lines| ensures HasKind(lines[i], kinds[i]) {
      if i < 2 { OtherBranchHeader(lines[i]); }
      else { UntrackedEntry(lines[i]); }
    }
    ParseStatusByKinds(lines, kinds);
  }

  lemma StatusOfAhead()
    ensures ParseStatus(AHEAD) == Status(Clean, Set, 1, 0)
  {
    var lines := AHEAD;
    var kinds := [Informational, Informational, Upstream, AheadBehind(1, 0)];
    forall i | 0 <= i < |lines| ensures HasKind(lines[i], kinds[i]) {
      if i < 2 { OtherBranchHeader(lines[i]); }
      else if i == 2 { UpstreamHeader(lines[i]); }
      else { OneAheadNoneBehind(); }
    }
    ParseStatusByKinds(lines, kinds);
  }

  /** The counts line of that output is read as 1 ahead and 0 behind. */
  lemma OneAheadNoneBehind()
    ensures HasKind(AHEAD[3], AheadBehind(1, 0))
  {
    AheadBehindHeader(AHEAD[3], "1", "0");
  }

  lemma StatusOfBehind()
    ensures ParseStatus(BEHIND) == Status(Clean, Set, 0, 1)
  {
    var lines := BEHIND;
    var kinds := [Informational, Informational, Upstream, AheadBehind(0, 1), Informational, Informational];
    forall i | 0 <= i < |lines| ensures HasKind(lines[i], kinds[i]) {
      if i < 2 { OtherBranchHeader(lines[i]); }
      else if i == 2 { UpstreamHeader(lines[i]); }
      else if i == 3 { AheadBehindHeader(lines[i], "0", "1"); }
      else { UntrackedEntry(lines[i]); }
    }
    ParseStatusByKinds(lines, kinds);
  }

  lemma StatusOfAheadAndBehind()
    ensures ParseStatus(AHEAD_AND_BEHIND) == Status(Clean, Set, 2, 13)
  {
    var lines := AHEAD_AND_BEHIND;
    var kinds := [Informational, Informational, Upstream, AheadBehind(2, 13)];
    forall i | 0 <= i < |lines| ensures HasKind(lines[i], kinds[i]) {
      if i < 2 { OtherBranchHeader(lines[i]); }
      else if i == 2 { UpstreamHeader(lines[i]); }
      else { TwoAheadThirteenBehind(); }
    }
    ParseStatusByKinds(lines, kinds);
  }

  /** The counts line of that output is read as 2 ahead and 13 behind. */
  lemma TwoAheadThirteenBehind()
    ensures HasKind(AHEAD_AND_BEHIND[3], AheadBehind(2, 13))
  {
    assert DecimalValue("13") == 13 by {
      assert "13"[..1] == "1";
    }
    AheadBehindHeader(AHEAD_AND_BEHIND[3], "2", "13");
  }

  // ---------------------------------------------------------------------------
  // Beyond the tests

  /** An empty line inside the output reaches the extractors and counts as a change entry:
      only the one empty piece after the final newline is dropped. */
  lemma BlankInteriorLineIsModified()
    ensures StatusLines(Terminated(["# branch.head trunk", ""])) == ["# branch.head trunk", ""]
    ensures ParseStatus(StatusLines(Terminated(["# branch.head trunk", ""]))).workingDirectoryStatus == Modified
  {
    var lines := ["# branch.head trunk", ""];
    assert '\n' !in lines[0] && '\n' !in lines[1];
    StatusLinesOfTerminated(lines);
    assert "" in lines && !IsHeaderOrUntracked("");
  }

  /** The counts are read even when no upstream line is present. */
  lemma CountsWithoutUpstream()
    ensures ParseStatus(["# branch.ab +1 -0"]) == Status(Clean, Unset, 1, 0)
  {
    var lines := ["# branch.ab +1 -0"];
    AheadBehindHeader(lines[0], "1", "0");
    ParseStatusByKinds(lines, [AheadBehind(1, 0)]);
  }
}
